/** `Caja`, as written: a cash drawer that is opened with a float, records
    cash movements in an append-only ledger while open, and is closed with
    the amount the cashier counts. Its ledger check adds the opening float
    to a ledger that already holds it (see `AperturaDobleConteo`); the
    module `CajasCorregidas` holds the corrected balance rule. */
module Cajas {
  import opened Outcomes
  import opened Text
  import opened Sumas
  import opened MovimientosCaja

  datatype Caja = Caja(
    id: EntityId,
    numeroCaja: int,
    nombre: string,
    estaAbierta: bool,
    fondoInicial: real,
    saldoActual: real,
    fechaApertura: Option<Instant>,
    fechaCierre: Option<Instant>,
    usuarioAperturaId: Option<Guid>,
    usuarioCierreId: Option<Guid>,
    saldoFinalDeclarado: Option<real>,
    diferencia: Option<real>,
    observacionesCierre: Option<string>,
    movimientos: seq<MovimientoCaja>)

  datatype CajaError =
    | NumeroNoPositivo
    | NombreRequerido
    | NombreMuyLargo
    | YaAbierta
    | FondoNegativo
    | UsuarioNoIndicado
    | NoAbierta
    | SaldoDeclaradoNegativo
    | UsarAbrirOCerrar
    | MovimientoRechazado(error: MovimientoCajaError)
    | DejariaSaldoNegativo
    | MontoNoPositivo

  const LongitudMaximaNombre: int := 100
  const Tolerancia: real := 0.01

  const ConceptoApertura: string := "Apertura de caja"
  /** The closing entry's concept; the currency-formatted figures the
      source appends to it are not modelled. */
  const ConceptoCierre: string := "Cierre de caja."
  const ConceptoSobrante: string := "Sobrante en caja"
  const ConceptoFaltante: string := "Faltante en caja"

  // ---------------------------------------------------------------------
  // Ledger sums
  // ---------------------------------------------------------------------

  function Monto(m: MovimientoCaja): real {
    m.monto
  }

  /** The three filtered totals: a `Where` followed by `Sum` is the sum
      with non-matching entries counted as zero. */
  function MontoDeVenta(m: MovimientoCaja): real {
    if m.tipo == Venta then m.monto else 0.0
  }

  function MontoDeCancelacion(m: MovimientoCaja): real {
    if m.tipo == CancelacionVenta then Abs(m.monto) else 0.0
  }

  function MontoDeRetiro(m: MovimientoCaja): real {
    if m.tipo == Retiro then Abs(m.monto) else 0.0
  }

  function TotalVentas(c: Caja): real {
    Suma(c.movimientos, MontoDeVenta)
  }

  function TotalCancelaciones(c: Caja): real {
    Suma(c.movimientos, MontoDeCancelacion)
  }

  function TotalRetiros(c: Caja): real {
    Suma(c.movimientos, MontoDeRetiro)
  }

  /** Every ledger entry carries the sign its kind demands, as
      `MovimientoCaja.Crear` ensures. */
  predicate LibroConSignos(c: Caja) {
    forall i | 0 <= i < |c.movimientos| :: SignoSegunTipo(c.movimientos[i])
  }

  /** The totals are never negative: cancellations and withdrawals count
      absolute values, and sales entries are non-negative once normalised. */
  lemma TotalesNoNegativos(c: Caja)
    ensures TotalCancelaciones(c) >= 0.0 && TotalRetiros(c) >= 0.0
    ensures LibroConSignos(c) ==> TotalVentas(c) >= 0.0
  {
    SumaNoNegativa(c.movimientos, MontoDeCancelacion);
    SumaNoNegativa(c.movimientos, MontoDeRetiro);
    if LibroConSignos(c) {
      SumaNoNegativa(c.movimientos, MontoDeVenta);
    }
  }

  /** `SaldoCalculado` as written: the float plus every ledger entry,
      although the ledger's first entry is the float itself. */
  function SaldoCalculado(c: Caja): real {
    c.fondoInicial + Suma(c.movimientos, Monto)
  }

  /** The three checks of `ValidarInvariantes`. */
  predicate Consistente(c: Caja) {
    && !(Abs(c.saldoActual - SaldoCalculado(c)) > Tolerancia)
    && !(c.saldoActual < 0.0)
    && !(!c.estaAbierta && c.fechaCierre.None?)
  }

  function Verificado(c: Caja): (r: Outcome<Caja, CajaError>)
    ensures r.Ok? <==> Consistente(c)
    ensures r.Ok? ==> r.value == c
    ensures !r.Fail?
  {
    if Consistente(c) then Ok(c) else InvariantViolated
  }

  // ---------------------------------------------------------------------
  // Creation, opening and closing
  // ---------------------------------------------------------------------

  /** `Caja.Crear`: the length limit applies to the untrimmed name. */
  function Crear(id: EntityId, numeroCaja: int, nombre: Option<string>): (r: Result<Caja, CajaError>)
    ensures r.Success? <==>
      numeroCaja > 0 && !IsNullOrWhiteSpace(nombre) && Utf16Length(nombre.value) <= LongitudMaximaNombre
    ensures numeroCaja <= 0 ==> r == Failure(NumeroNoPositivo)
    ensures numeroCaja > 0 && IsNullOrWhiteSpace(nombre) ==> r == Failure(NombreRequerido)
    ensures r.Success? ==> (r.value.nombre == Trim(nombre.value) && r.value.nombre != []
                            && r.value.numeroCaja == numeroCaja && r.value.id == id)
    ensures r.Success? ==> (!r.value.estaAbierta && r.value.saldoActual == 0.0
                            && r.value.movimientos == [] && SaldoCalculado(r.value) == 0.0)
  {
    if numeroCaja <= 0 then Failure(NumeroNoPositivo)
    else if IsNullOrWhiteSpace(nombre) then Failure(NombreRequerido)
    else if Utf16Length(nombre.value) > LongitudMaximaNombre then Failure(NombreMuyLargo)
    else Success(Caja(id, numeroCaja, Trim(nombre.value), false, 0.0, 0.0,
                      None, None, None, None, None, None, None, []))
  }

  /** The name limit counts UTF-16 code units: 51 copies of U+1F600 are
      51 characters but 102 units, two past the limit of 100, while 50 copies fit exactly. */
  lemma NombreEnUnidades(id: EntityId)
    ensures Crear(id, 1, Some(seq(51, _ => '\U{1F600}'))) == Failure(NombreMuyLargo)
    ensures Crear(id, 1, Some(seq(50, _ => '\U{1F600}'))).Success?
  {
    var largo: string := seq(51, _ => '\U{1F600}');
    var corto: string := seq(50, _ => '\U{1F600}');
    Utf16LengthFueraBmp(largo);
    Utf16LengthFueraBmp(corto);
    assert !IsWhiteSpace(largo[0]) && !IsWhiteSpace(corto[0]);
  }

  /** The adjustment's concept: a surplus when the count exceeds the
      computed balance, a shortfall otherwise. */
  function ConceptoAjuste(d: real): (r: string)
    ensures 0 < |r| <= LongitudMaximaConcepto / 2 && !IsWhiteSpace(r[0])
    ensures r == ConceptoSobrante <==> d > 0.0
  {
    if d > 0.0 then ConceptoSobrante else ConceptoFaltante
  }

  /** A short concept that starts with a visible character passes the
      factory's concept checks. */
  lemma ConceptoAceptado(s: string)
    requires 0 < |s| <= LongitudMaximaConcepto / 2 && !IsWhiteSpace(s[0])
    ensures !IsBlank(s) && Utf16Length(s) <= LongitudMaximaConcepto
  {
  }

  /** The ledger entry for a closing or an opening: `MovimientoCaja.Crear`
      on the drawer's own id, a non-empty user and one of the drawer's fixed
      concepts, all of which are short and start with a letter. The source
      appends it only if the factory succeeds, which it always does here. */
  function EntradaFija(c: Caja, tipo: TipoMovimientoCaja, monto: real, concepto: string,
                       usuarioId: Guid, now: Instant): (m: MovimientoCaja)
    requires usuarioId != EmptyGuid && 0 < |concepto| <= LongitudMaximaConcepto / 2 && !IsWhiteSpace(concepto[0])
    requires EsEntrada(tipo) ==> monto >= 0.0
    requires !EsSalida(tipo)
    ensures m.tipo == tipo && m.monto == monto && SignoSegunTipo(m)
    ensures m.cajaId == c.id && m.usuarioId == usuarioId && m.fecha == now
  {
    ConceptoAceptado(concepto);
    var r := MovimientosCaja.Crear(c.id, tipo, monto, Some(concepto), usuarioId, None, now);
    assert r.Success?;
    r.value
  }

  /** `Abrir`: starts a new shift; the ledger restarts with the opening entry. */
  function Abrir(c: Caja, fondoInicial: real, usuarioId: Guid, now: Instant): (r: Outcome<Caja, CajaError>)
    ensures r.Ok? <==> !c.estaAbierta && fondoInicial >= 0.0 && usuarioId != EmptyGuid
    ensures c.estaAbierta ==> r == Fail(YaAbierta)
    ensures !c.estaAbierta && fondoInicial < 0.0 ==> r == Fail(FondoNegativo)
    ensures r.Ok? ==> (r.value.estaAbierta && r.value.fondoInicial == fondoInicial
                       && r.value.saldoActual == fondoInicial && r.value.fechaApertura == Some(now)
                       && r.value.usuarioAperturaId == Some(usuarioId))
    ensures r.Ok? ==> (r.value.fechaCierre.None? && r.value.usuarioCierreId.None?
                       && r.value.saldoFinalDeclarado.None? && r.value.diferencia.None?
                       && r.value.observacionesCierre.None?)
    ensures r.Ok? ==> (|r.value.movimientos| == 1 && r.value.movimientos[0].tipo == Apertura
                       && r.value.movimientos[0].monto == fondoInicial)
    ensures r.Ok? ==> (r.value.id == c.id && r.value.numeroCaja == c.numeroCaja && r.value.nombre == c.nombre)
    ensures r.Ok? ==> LibroConSignos(r.value)
    ensures r.Ok? ==> Suma(r.value.movimientos, Monto) == fondoInicial
    ensures !r.InvariantViolated?
  {
    if c.estaAbierta then Fail(YaAbierta)
    else if fondoInicial < 0.0 then Fail(FondoNegativo)
    else if usuarioId == EmptyGuid then Fail(UsuarioNoIndicado)
    else
      var apertura := EntradaApertura(c, fondoInicial, usuarioId, now);
      var ms := [apertura];
      SumaUnitaria(ms, Monto);
      Ok(c.(fondoInicial := fondoInicial, saldoActual := fondoInicial, estaAbierta := true,
            fechaApertura := Some(now), usuarioAperturaId := Some(usuarioId),
            fechaCierre := None, usuarioCierreId := None, saldoFinalDeclarado := None,
            diferencia := None, observacionesCierre := None, movimientos := ms))
  }

  /** As written, an opened drawer's computed balance is twice its float. */
  lemma AperturaDuplicaFondo(c: Caja, fondoInicial: real, usuarioId: Guid, now: Instant)
    requires Abrir(c, fondoInicial, usuarioId, now).Ok?
    ensures var a := Abrir(c, fondoInicial, usuarioId, now).value;
      SaldoCalculado(a) == 2.0 * fondoInicial && a.saldoActual == fondoInicial
  {
  }

  /** The entries a closing appends: the closing entry and, when the count
      differs from the computed balance by `d != 0`, an adjustment entry of
      `d`, labelled as a surplus or a shortfall. */
  function EntradasDeCierre(c: Caja, d: real, usuarioId: Guid, now: Instant): (r: seq<MovimientoCaja>)
    requires usuarioId != EmptyGuid
    ensures |r| == if d == 0.0 then 1 else 2
    ensures r[0].tipo == Cierre && r[0].monto == 0.0
    ensures d != 0.0 ==> r[1].tipo == Ajuste && r[1].monto == d
    ensures Suma(r, Monto) == d
    ensures forall i | 0 <= i < |r| :: SignoSegunTipo(r[i])
  {
    var cierre := EntradaCierre(c, usuarioId, now);
    if d == 0.0 then
      SumaUnitaria([cierre], Monto);
      [cierre]
    else
      var ajuste := EntradaAjuste(c, d, usuarioId, now);
      SumaPar(cierre, ajuste, Monto);
      [cierre, ajuste]
  }

  function EntradaApertura(c: Caja, fondoInicial: real, usuarioId: Guid, now: Instant): (m: MovimientoCaja)
    requires usuarioId != EmptyGuid && fondoInicial >= 0.0
    ensures m.tipo == Apertura && m.monto == fondoInicial && SignoSegunTipo(m)
  {
    EntradaFija(c, Apertura, fondoInicial, ConceptoApertura, usuarioId, now)
  }

  function EntradaCierre(c: Caja, usuarioId: Guid, now: Instant): (m: MovimientoCaja)
    requires usuarioId != EmptyGuid
    ensures m.tipo == Cierre && m.monto == 0.0 && SignoSegunTipo(m)
  {
    EntradaFija(c, Cierre, 0.0, ConceptoCierre, usuarioId, now)
  }

  function EntradaAjuste(c: Caja, d: real, usuarioId: Guid, now: Instant): (m: MovimientoCaja)
    requires usuarioId != EmptyGuid
    ensures m.tipo == Ajuste && m.monto == d && SignoSegunTipo(m)
  {
    EntradaFija(c, Ajuste, d, ConceptoAjuste(d), usuarioId, now)
  }

  /** Appending entries with their signs keeps every entry signed. */
  lemma SignosTrasAgregar(c: Caja, nuevas: seq<MovimientoCaja>)
    requires LibroConSignos(c)
    requires forall i | 0 <= i < |nuevas| :: SignoSegunTipo(nuevas[i])
    ensures LibroConSignos(c.(movimientos := c.movimientos + nuevas))
  {
    var ms := c.movimientos + nuevas;
    assert forall i | 0 <= i < |ms| :: ms[i] == if i < |c.movimientos| then c.movimientos[i] else nuevas[i - |c.movimientos|];
  }

  /** The closing shared by both balance rules, given the computed balance
      `calculado` the rule yields: records the count and the difference
      and appends the closing entries. The running balance is left alone. */
  function CerrarCon(c: Caja, saldoDeclarado: real, usuarioId: Guid, observaciones: Option<string>,
                     now: Instant, calculado: real): (r: Outcome<Caja, CajaError>)
    ensures r.Ok? <==> c.estaAbierta && saldoDeclarado >= 0.0 && usuarioId != EmptyGuid
    ensures !c.estaAbierta ==> r == Fail(NoAbierta)
    ensures c.estaAbierta && saldoDeclarado < 0.0 ==> r == Fail(SaldoDeclaradoNegativo)
    ensures r.Ok? ==> var d := saldoDeclarado - calculado;
      r.value == c.(estaAbierta := false, fechaCierre := Some(now), usuarioCierreId := Some(usuarioId),
                    saldoFinalDeclarado := Some(saldoDeclarado), diferencia := Some(d),
                    observacionesCierre := Some(TrimOrEmpty(observaciones)),
                    movimientos := c.movimientos + EntradasDeCierre(c, d, usuarioId, now))
    ensures r.Ok? ==> Suma(r.value.movimientos, Monto) == Suma(c.movimientos, Monto) + (saldoDeclarado - calculado)
    ensures !r.InvariantViolated?
  {
    if !c.estaAbierta then Fail(NoAbierta)
    else if saldoDeclarado < 0.0 then Fail(SaldoDeclaradoNegativo)
    else if usuarioId == EmptyGuid then Fail(UsuarioNoIndicado)
    else
      var d := saldoDeclarado - calculado;
      var nuevas := EntradasDeCierre(c, d, usuarioId, now);
      SumaConcat(c.movimientos, nuevas, Monto);
      Ok(c.(saldoFinalDeclarado := Some(saldoDeclarado), diferencia := Some(d), estaAbierta := false,
            fechaCierre := Some(now), usuarioCierreId := Some(usuarioId),
            observacionesCierre := Some(TrimOrEmpty(observaciones)), movimientos := c.movimientos + nuevas))
  }

  /** `Cerrar`: after it the ledger, read by `SaldoCalculado`, adds up to
      exactly the declared amount. */
  function Cerrar(c: Caja, saldoDeclarado: real, usuarioId: Guid, observaciones: Option<string>, now: Instant)
    : (r: Outcome<Caja, CajaError>)
    ensures r.Ok? <==> c.estaAbierta && saldoDeclarado >= 0.0 && usuarioId != EmptyGuid
    ensures r.Ok? ==> r.value.diferencia == Some(saldoDeclarado - SaldoCalculado(c))
    ensures r.Ok? ==> SaldoCalculado(r.value) == saldoDeclarado
    ensures r.Ok? ==> !r.value.estaAbierta && r.value.fechaCierre == Some(now)
    ensures !r.InvariantViolated?
  {
    CerrarCon(c, saldoDeclarado, usuarioId, observaciones, now, SaldoCalculado(c))
  }

  /** Closing keeps every ledger entry's sign consistent with its kind:
      the closing entry and the adjustment are neither inflows nor outflows. */
  lemma CierreConservaSignos(c: Caja, saldoDeclarado: real, usuarioId: Guid, observaciones: Option<string>,
                             now: Instant, calculado: real)
    requires LibroConSignos(c)
    ensures var r := CerrarCon(c, saldoDeclarado, usuarioId, observaciones, now, calculado);
      r.Ok? ==> LibroConSignos(r.value)
  {
    var r := CerrarCon(c, saldoDeclarado, usuarioId, observaciones, now, calculado);
    if r.Ok? {
      SignosTrasAgregar(c, EntradasDeCierre(c, saldoDeclarado - calculado, usuarioId, now));
    }
  }

  // ---------------------------------------------------------------------
  // Movements
  // ---------------------------------------------------------------------

  /** `RegistrarMovimiento`, as written: the balance moves by the amount
      passed in, even when the stored entry had its sign forced. */
  function RegistrarMovimiento(c: Caja, tipo: TipoMovimientoCaja, monto: real, concepto: Option<string>,
                               usuarioId: Guid, referencia: Option<string>, now: Instant)
    : (r: Outcome<Caja, CajaError>)
    ensures !c.estaAbierta ==> r == Fail(NoAbierta)
    ensures c.estaAbierta && (tipo == Apertura || tipo == Cierre) ==> r == Fail(UsarAbrirOCerrar)
    ensures var m := MovimientosCaja.Crear(c.id, tipo, monto, concepto, usuarioId, referencia, now);
      && (c.estaAbierta && tipo != Apertura && tipo != Cierre && m.Failure? ==> r == Fail(MovimientoRechazado(m.error)))
      && (c.estaAbierta && tipo != Apertura && tipo != Cierre && m.Success? && c.saldoActual + monto < 0.0
          ==> r == Fail(DejariaSaldoNegativo))
      && (r.Ok? ==> m.Success? && r.value.movimientos == c.movimientos + [m.value])
    ensures r.Ok? ==> (r.value.saldoActual == c.saldoActual + monto && r.value.saldoActual >= 0.0
                       && r.value.estaAbierta && Consistente(r.value))
    ensures r.Ok? ==> r.value == c.(movimientos := r.value.movimientos, saldoActual := r.value.saldoActual)
    ensures var m := MovimientosCaja.Crear(c.id, tipo, monto, concepto, usuarioId, referencia, now);
      c.estaAbierta && tipo != Apertura && tipo != Cierre && m.Success? && c.saldoActual + monto >= 0.0 ==>
        && (r.Ok? <==> Consistente(c.(movimientos := c.movimientos + [m.value], saldoActual := c.saldoActual + monto)))
        && (!r.Ok? ==> r == InvariantViolated)
  {
    if !c.estaAbierta then Fail(NoAbierta)
    else if tipo == Apertura || tipo == Cierre then Fail(UsarAbrirOCerrar)
    else
      match MovimientosCaja.Crear(c.id, tipo, monto, concepto, usuarioId, referencia, now)
      case Failure(e) => Fail(MovimientoRechazado(e))
      case Success(m) =>
        var nuevoSaldo := c.saldoActual + monto;
        if nuevoSaldo < 0.0 then Fail(DejariaSaldoNegativo)
        else Verificado(c.(movimientos := c.movimientos + [m], saldoActual := nuevoSaldo))
  }

  /** A recorded movement keeps every ledger entry's sign consistent with
      its kind, since the factory normalises the new entry. */
  lemma MovimientoConservaSignos(c: Caja, tipo: TipoMovimientoCaja, monto: real, concepto: Option<string>,
                                 usuarioId: Guid, referencia: Option<string>, now: Instant)
    requires LibroConSignos(c)
    ensures var r := RegistrarMovimiento(c, tipo, monto, concepto, usuarioId, referencia, now);
      r.Ok? ==> LibroConSignos(r.value)
  {
    var r := RegistrarMovimiento(c, tipo, monto, concepto, usuarioId, referencia, now);
    var m := MovimientosCaja.Crear(c.id, tipo, monto, concepto, usuarioId, referencia, now);
    if r.Ok? {
      assert SignoSegunTipo(m.value);
      var ms := r.value.movimientos;
      assert ms == c.movimientos + [m.value];
      assert forall i | 0 <= i < |ms| :: ms[i] == if i < |c.movimientos| then c.movimientos[i] else m.value;
    }
  }

  /** The concept of a sale or cancellation entry: an interpolated null
      folio is the empty string. */
  function ConceptoConFolio(prefijo: string, folioVenta: Option<string>): string {
    prefijo + (if folioVenta.None? then "" else folioVenta.value)
  }

  const PrefijoVenta: string := "Venta - Folio: "
  const PrefijoCancelacion: string := "Cancelación - Folio: "

  /** `RegistrarVenta`: an inflow referenced by the sale's folio. */
  function RegistrarVenta(c: Caja, monto: real, folioVenta: Option<string>, usuarioId: Guid, now: Instant)
    : (r: Outcome<Caja, CajaError>)
    ensures r.Ok? ==> (r.value.saldoActual == c.saldoActual + monto && monto >= 0.0
                       && |r.value.movimientos| == |c.movimientos| + 1
                       && r.value.movimientos[|c.movimientos|].tipo == Venta
                       && r.value.movimientos[|c.movimientos|].monto == monto
                       && r.value.movimientos[|c.movimientos|].referencia == TrimOrEmpty(folioVenta))
    ensures c.estaAbierta && usuarioId != EmptyGuid && monto < 0.0
            && Utf16Length(ConceptoConFolio(PrefijoVenta, folioVenta)) <= LongitudMaximaConcepto
            ==> r == Fail(MovimientoRechazado(MontoDebeSerPositivo(Venta)))
  {
    assert !IsWhiteSpace(ConceptoConFolio(PrefijoVenta, folioVenta)[0]);
    RegistrarMovimiento(c, Venta, monto, Some(ConceptoConFolio(PrefijoVenta, folioVenta)), usuarioId, folioVenta, now)
  }

  /** `RegistrarCancelacion`: the amount is passed negated, as an outflow. */
  function RegistrarCancelacion(c: Caja, monto: real, folioVenta: Option<string>, usuarioId: Guid, now: Instant)
    : (r: Outcome<Caja, CajaError>)
    ensures r.Ok? ==> (r.value.saldoActual == c.saldoActual - monto
                       && |r.value.movimientos| == |c.movimientos| + 1
                       && r.value.movimientos[|c.movimientos|].tipo == CancelacionVenta
                       && r.value.movimientos[|c.movimientos|].monto == -Abs(monto))
  {
    RegistrarMovimiento(c, CancelacionVenta, -monto, Some(ConceptoConFolio(PrefijoCancelacion, folioVenta)),
                        usuarioId, folioVenta, now)
  }

  /** `RegistrarRetiro`: a positive amount taken out of the drawer. */
  function RegistrarRetiro(c: Caja, monto: real, motivo: Option<string>, usuarioId: Guid, now: Instant)
    : (r: Outcome<Caja, CajaError>)
    ensures monto <= 0.0 ==> r == Fail(MontoNoPositivo)
    ensures r.Ok? ==> (monto > 0.0 && r.value.saldoActual == c.saldoActual - monto
                       && |r.value.movimientos| == |c.movimientos| + 1
                       && r.value.movimientos[|c.movimientos|].tipo == Retiro
                       && r.value.movimientos[|c.movimientos|].monto == -monto)
    ensures monto > 0.0 && c.estaAbierta && c.saldoActual < monto && r.Fail? ==>
      r.error == DejariaSaldoNegativo || r.error.MovimientoRechazado?
  {
    if monto <= 0.0 then Fail(MontoNoPositivo)
    else RegistrarMovimiento(c, Retiro, -monto, motivo, usuarioId, None, now)
  }

  /** `RegistrarDeposito`: a positive amount put into the drawer. */
  function RegistrarDeposito(c: Caja, monto: real, motivo: Option<string>, usuarioId: Guid, now: Instant)
    : (r: Outcome<Caja, CajaError>)
    ensures monto <= 0.0 ==> r == Fail(MontoNoPositivo)
    ensures r.Ok? ==> (monto > 0.0 && r.value.saldoActual == c.saldoActual + monto
                       && |r.value.movimientos| == |c.movimientos| + 1
                       && r.value.movimientos[|c.movimientos|].tipo == Deposito
                       && r.value.movimientos[|c.movimientos|].monto == monto)
  {
    if monto <= 0.0 then Fail(MontoNoPositivo)
    else RegistrarMovimiento(c, Deposito, monto, motivo, usuarioId, None, now)
  }

  // ---------------------------------------------------------------------
  // What the balance rule as written does
  // ---------------------------------------------------------------------

  /** Once a drawer is opened with a float above one cent, no movement
      stored with the amount passed in (every call the four wrappers make
      with a positive amount) can be recorded: each one that passes the
      guards trips the ledger check, because the computed balance counts
      the float twice. */
  lemma AperturaDobleConteo(c: Caja, fondoInicial: real, usuarioId: Guid, now: Instant,
                            tipo: TipoMovimientoCaja, monto: real, concepto: Option<string>,
                            usuario2: Guid, referencia: Option<string>, now2: Instant)
    requires fondoInicial > Tolerancia && Abrir(c, fondoInicial, usuarioId, now).Ok?
    requires !(EsSalida(tipo) && monto > 0.0)
    ensures !RegistrarMovimiento(Abrir(c, fondoInicial, usuarioId, now).value, tipo, monto, concepto,
                                 usuario2, referencia, now2).Ok?
  {
    var a := Abrir(c, fondoInicial, usuarioId, now).value;
    var r := RegistrarMovimiento(a, tipo, monto, concepto, usuario2, referencia, now2);
    var m := MovimientosCaja.Crear(a.id, tipo, monto, concepto, usuario2, referencia, now2);
    if m.Success? {
      SumaAgregar(a.movimientos, m.value, Monto);
    }
  }

  /** A cancellation passed a negative amount is stored negative (the sign
      is forced) while the balance grows by its absolute value, so the
      ledger check fails even on a drawer opened with no float. */
  lemma CancelacionNegativaDescuadra(c: Caja, usuarioId: Guid, now: Instant)
    requires Abrir(c, 0.0, usuarioId, now).Ok?
    ensures RegistrarCancelacion(Abrir(c, 0.0, usuarioId, now).value, -5.0, Some(FolioEjemplo), usuarioId, now)
            == InvariantViolated
  {
    var a := Abrir(c, 0.0, usuarioId, now).value;
    var concepto := ConceptoConFolio(PrefijoCancelacion, Some(FolioEjemplo));
    assert !IsWhiteSpace(concepto[0]);
    var m := MovimientosCaja.Crear(a.id, CancelacionVenta, 5.0, Some(concepto), usuarioId, Some(FolioEjemplo), now);
    assert m.Success? && m.value.monto == -5.0;
    SumaAgregar(a.movimientos, m.value, Monto);
  }

  const FolioEjemplo: string := "20260101-0001"

  /** The opening steps of the cash scenario, as written: a
      float of 500.00 and then a sale of 23.20 is refused by the ledger
      check. */
  lemma EscenarioCajaComoEscrito(c: Caja, usuarioId: Guid, now: Instant, folio: string)
    requires !c.estaAbierta && usuarioId != EmptyGuid
    ensures Abrir(c, 500.0, usuarioId, now).Ok?
    ensures !RegistrarVenta(Abrir(c, 500.0, usuarioId, now).value, 23.2, Some(folio), usuarioId, now).Ok?
  {
    var a := Abrir(c, 500.0, usuarioId, now).value;
    assert !IsWhiteSpace(ConceptoConFolio(PrefijoVenta, Some(folio))[0]);
    AperturaDobleConteo(c, 500.0, usuarioId, now, Venta, 23.2, Some(ConceptoConFolio(PrefijoVenta, Some(folio))),
                        usuarioId, Some(folio), now);
  }
}
