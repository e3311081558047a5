/** `MovimientoInventario`: an immutable audit record of one stock change.
    Its factory checks that the quantity is the difference between the
    stock after and before, and only then forces outflows negative, so an
    outflow passed as a positive quantity is stored with a sign that no
    longer matches the stocks it records. */
module MovimientosInventario {
  import opened Outcomes
  import opened Text
  import Inventarios

  datatype TipoMovimientoInventario = Entrada | Venta | Devolucion | Ajuste | Merma | TraspasoSalida | TraspasoEntrada

  datatype MovimientoInventario = MovimientoInventario(
    productoId: Guid,
    tipo: TipoMovimientoInventario,
    cantidad: int,
    stockAnterior: int,
    stockPosterior: int,
    concepto: string,
    referencia: string,
    usuarioId: Guid,
    fecha: Instant)

  datatype MovimientoInventarioError =
    | ProductoRequerido
    | CantidadCero
    | StockNegativo
    | ConceptoRequerido
    | ConceptoMuyLargo
    | UsuarioRequerido
    | Inconsistente(diferencia: int, cantidad: int)
    | CantidadDebeSerPositiva(tipo: TipoMovimientoInventario)

  const LongitudMaximaConcepto: int := 500

  /** Kinds that take stock out. */
  predicate EsSalida(t: TipoMovimientoInventario) {
    t == Venta || t == Merma || t == TraspasoSalida
  }

  /** Kinds that bring stock in. */
  predicate EsEntrada(t: TipoMovimientoInventario) {
    t == Entrada || t == Devolucion || t == TraspasoEntrada
  }

  /** The stocks a record carries differ by its quantity. */
  predicate Coherente(m: MovimientoInventario) {
    m.stockPosterior - m.stockAnterior == m.cantidad
  }

  /** `MovimientoInventario.Crear`, dated `now`. The length limit applies to
      the untrimmed concept. */
  function Crear(productoId: Guid, tipo: TipoMovimientoInventario, cantidad: int, stockAnterior: int,
                 stockPosterior: int, concepto: Option<string>, usuarioId: Guid, referencia: Option<string>,
                 now: Instant): (r: Result<MovimientoInventario, MovimientoInventarioError>)
    ensures r.Success? <==>
      && productoId != EmptyGuid && cantidad != 0 && stockAnterior >= 0 && stockPosterior >= 0
      && !IsNullOrWhiteSpace(concepto) && Utf16Length(concepto.value) <= LongitudMaximaConcepto
      && usuarioId != EmptyGuid && stockPosterior - stockAnterior == cantidad
      && !(EsEntrada(tipo) && cantidad < 0)
    ensures productoId == EmptyGuid ==> r == Failure(ProductoRequerido)
    ensures productoId != EmptyGuid && cantidad == 0 ==> r == Failure(CantidadCero)
    ensures r.Failure? && r.error.Inconsistente? ==>
      r.error == Inconsistente(stockPosterior - stockAnterior, cantidad) && stockPosterior - stockAnterior != cantidad
    ensures r.Failure? && r.error.CantidadDebeSerPositiva? ==> EsEntrada(tipo) && cantidad < 0
    ensures r.Success? && EsSalida(tipo) ==> r.value.cantidad == -Abs(cantidad) < 0
    ensures r.Success? && EsEntrada(tipo) ==> r.value.cantidad == cantidad > 0
    ensures r.Success? && tipo == Ajuste ==> r.value.cantidad == cantidad
    ensures r.Success? ==> (r.value.stockAnterior == stockAnterior && r.value.stockPosterior == stockPosterior
                            && r.value.concepto == Trim(concepto.value)
                            && r.value.referencia == TrimOrEmpty(referencia)
                            && r.value.productoId == productoId && r.value.tipo == tipo
                            && r.value.usuarioId == usuarioId && r.value.fecha == now)
  {
    if productoId == EmptyGuid then Failure(ProductoRequerido)
    else if cantidad == 0 then Failure(CantidadCero)
    else if stockAnterior < 0 || stockPosterior < 0 then Failure(StockNegativo)
    else if IsNullOrWhiteSpace(concepto) then Failure(ConceptoRequerido)
    else if Utf16Length(concepto.value) > LongitudMaximaConcepto then Failure(ConceptoMuyLargo)
    else if usuarioId == EmptyGuid then Failure(UsuarioRequerido)
    else if stockPosterior - stockAnterior != cantidad then
      Failure(Inconsistente(stockPosterior - stockAnterior, cantidad))
    else
      var q := if EsSalida(tipo) && cantidad > 0 then -Abs(cantidad) else cantidad;
      if EsEntrada(tipo) && q < 0 then Failure(CantidadDebeSerPositiva(tipo))
      else Success(MovimientoInventario(productoId, tipo, q, stockAnterior, stockPosterior,
                                        Trim(concepto.value), TrimOrEmpty(referencia), usuarioId, now))
  }

  function Abs(x: int): int {
    if x < 0 then -x else x
  }

  /** A stored record keeps the stocks' difference as its quantity exactly
      when its sign was not forced: an outflow passed as a positive
      quantity (which the check demands be the stock's growth) is stored
      negated, and so contradicts the stocks it records. */
  lemma CoherenteSalvoSignoForzado(productoId: Guid, tipo: TipoMovimientoInventario, cantidad: int,
                                   stockAnterior: int, stockPosterior: int, concepto: Option<string>,
                                   usuarioId: Guid, referencia: Option<string>, now: Instant)
    ensures var r := Crear(productoId, tipo, cantidad, stockAnterior, stockPosterior, concepto, usuarioId,
                           referencia, now);
      r.Success? ==> (Coherente(r.value) <==> !(EsSalida(tipo) && cantidad > 0))
  {
  }

  /** A concrete instance: a sale recorded with quantity 3 while the stock
      goes from 10 to 13 passes the check and is stored as -3. */
  lemma VentaPositivaIncoherente(productoId: Guid, usuarioId: Guid, now: Instant)
    requires productoId != EmptyGuid && usuarioId != EmptyGuid
    ensures var r := Crear(productoId, Venta, 3, 10, 13, Some("Venta"), usuarioId, None, now);
      r.Success? && r.value.cantidad == -3 && !Coherente(r.value)
  {
    assert !IsWhiteSpace("Venta"[0]);
  }

  /** Finalising a sale: confirming the reserved units and then recording
      the audit entry the way the sale's finalisation does (quantity
      `-cantidad`, before = the stock after plus `cantidad`, after = the
      stock after) always yields a coherent record that reflects the
      confirmation. */
  lemma ConfirmarYAuditar(inv: Inventarios.Inventario, cantidad: int, concepto: string, usuarioId: Guid,
                          folio: string, now: Instant)
    requires Inventarios.ConfirmarReserva(inv, cantidad).Ok?
    requires inv.productoId != EmptyGuid && usuarioId != EmptyGuid
    requires !IsBlank(concepto) && Utf16Length(concepto) <= LongitudMaximaConcepto
    ensures var despues := Inventarios.ConfirmarReserva(inv, cantidad).value;
      var m := Crear(inv.productoId, Venta, -cantidad, despues.stockFisico + cantidad, despues.stockFisico,
                     Some(concepto), usuarioId, Some(folio), now);
      && m.Success? && Coherente(m.value)
      && m.value.stockAnterior == inv.stockFisico && m.value.stockPosterior == despues.stockFisico
      && m.value.cantidad == -cantidad < 0
  {
  }
}
