/** `Inventario`: the stock record of one product. It tracks the physical
    stock, the quantity held by open sales, and the thresholds used for
    restocking. Every operation validates its input before touching the
    record; some then run the private invariant check, whose exception is
    modelled as `InvariantViolated`. */
module Inventarios {
  import opened Outcomes
  import opened Text

  datatype Inventario = Inventario(
    productoId: Guid,
    stockFisico: int,
    cantidadReservada: int,
    stockMinimo: int,
    stockMaximo: int)

  datatype InventarioError =
    | ProductoRequerido
    | StockInicialNegativo
    | StockMinimoNegativo
    | MaximoNoMayorQueMinimo
    | InicialExcedeMaximo
    | CantidadNoPositiva
    | StockInsuficiente
    | LiberacionExcedeReserva
    | ReservaInconsistente
    | StockFisicoInsuficiente
    | ExcederiaMaximo
    | StockNegativo
    | DejariaReservasSinStock
    | MenorQueReservado
    | MotivoRequerido

  /** Stock that can still be sold. */
  function StockDisponible(inv: Inventario): int {
    inv.stockFisico - inv.cantidadReservada
  }

  /** The physical stock has reached the alert threshold. */
  predicate StockBajo(inv: Inventario) {
    inv.stockFisico <= inv.stockMinimo
  }

  /** The four conditions `ValidarInvariantes` checks. */
  predicate Consistente(inv: Inventario) {
    && inv.stockFisico >= 0
    && inv.cantidadReservada >= 0
    && StockDisponible(inv) >= 0
    && inv.cantidadReservada <= inv.stockFisico
  }

  /** The invariant of every record built by `Crear` and kept by every
      operation: the reservation ceiling and sane thresholds. */
  predicate Valido(inv: Inventario) {
    && 0 <= inv.cantidadReservada <= inv.stockFisico
    && 0 <= inv.stockMinimo < inv.stockMaximo
  }

  /** The derived quantities, and the fact that the reservation ceiling is
      exactly what the invariant check demands. */
  lemma DerivadosDefinicion(inv: Inventario)
    ensures StockDisponible(inv) + inv.cantidadReservada == inv.stockFisico
    ensures StockBajo(inv) <==> inv.stockFisico <= inv.stockMinimo
    ensures Valido(inv) ==> Consistente(inv) && 0 <= StockDisponible(inv) <= inv.stockFisico
    ensures Consistente(inv) <==> 0 <= inv.cantidadReservada <= inv.stockFisico
  {
  }

  /** Runs the private invariant check on the state an operation produced. */
  function Verificado(next: Inventario): (r: Outcome<Inventario, InventarioError>)
    ensures r.Ok? <==> Consistente(next)
    ensures r.Ok? ==> r.value == next
    ensures !r.Fail?
  {
    if Consistente(next) then Ok(next) else InvariantViolated
  }

  /** `Inventario.Crear`. */
  function Crear(productoId: Guid, stockInicial: int, stockMinimo: int, stockMaximo: int)
    : (r: Result<Inventario, InventarioError>)
    ensures r.Success? <==>
      && productoId != EmptyGuid && stockInicial >= 0 && stockMinimo >= 0
      && stockMaximo > stockMinimo && stockInicial <= stockMaximo
    ensures productoId == EmptyGuid ==> r == Failure(ProductoRequerido)
    ensures productoId != EmptyGuid && stockInicial < 0 ==> r == Failure(StockInicialNegativo)
    ensures r.Success? ==> Valido(r.value) && r.value.cantidadReservada == 0
    ensures r.Success? ==> r.value.stockFisico == stockInicial && r.value.productoId == productoId
    ensures r.Success? ==> r.value.stockMinimo == stockMinimo && r.value.stockMaximo == stockMaximo
  {
    if productoId == EmptyGuid then Failure(ProductoRequerido)
    else if stockInicial < 0 then Failure(StockInicialNegativo)
    else if stockMinimo < 0 then Failure(StockMinimoNegativo)
    else if stockMaximo <= stockMinimo then Failure(MaximoNoMayorQueMinimo)
    else if stockInicial > stockMaximo then Failure(InicialExcedeMaximo)
    else Success(Inventario(productoId, stockInicial, 0, stockMinimo, stockMaximo))
  }

  /** `ReservarStock`: holds `cantidad` units for an open sale. */
  function ReservarStock(inv: Inventario, cantidad: int): (r: Outcome<Inventario, InventarioError>)
    ensures cantidad <= 0 ==> r == Fail(CantidadNoPositiva)
    ensures cantidad > 0 && StockDisponible(inv) < cantidad ==> r == Fail(StockInsuficiente)
    ensures r.Ok? ==> r.value == inv.(cantidadReservada := inv.cantidadReservada + cantidad)
    ensures r.Ok? ==> StockDisponible(r.value) == StockDisponible(inv) - cantidad >= 0
    ensures Valido(inv) ==> !r.InvariantViolated?
    ensures Valido(inv) && r.Ok? ==> Valido(r.value)
    ensures Valido(inv) && 0 < cantidad <= StockDisponible(inv) ==> r.Ok?
  {
    if cantidad <= 0 then Fail(CantidadNoPositiva)
    else if StockDisponible(inv) < cantidad then Fail(StockInsuficiente)
    else Verificado(inv.(cantidadReservada := inv.cantidadReservada + cantidad))
  }

  /** `LiberarReserva`: gives back `cantidad` held units. The source then
      floors the reserved quantity at zero; the floor is kept here, and the
      contract shows it never changes anything. */
  function LiberarReserva(inv: Inventario, cantidad: int): (r: Outcome<Inventario, InventarioError>)
    ensures cantidad <= 0 ==> r == Fail(CantidadNoPositiva)
    ensures cantidad > 0 && cantidad > inv.cantidadReservada ==> r == Fail(LiberacionExcedeReserva)
    ensures 0 < cantidad <= inv.cantidadReservada ==> r.Ok?
    ensures r.Ok? ==> r.value == inv.(cantidadReservada := inv.cantidadReservada - cantidad)
    ensures r.Ok? ==> r.value.cantidadReservada >= 0
    ensures Valido(inv) && r.Ok? ==> Valido(r.value)
    ensures !r.InvariantViolated?
  {
    if cantidad <= 0 then Fail(CantidadNoPositiva)
    else if cantidad > inv.cantidadReservada then Fail(LiberacionExcedeReserva)
    else
      var reservada := inv.cantidadReservada - cantidad;
      Ok(inv.(cantidadReservada := if reservada < 0 then 0 else reservada))
  }

  /** `ConfirmarReserva`: turns held units into a sale, removing them from
      both the physical and the reserved stock. */
  function ConfirmarReserva(inv: Inventario, cantidad: int): (r: Outcome<Inventario, InventarioError>)
    ensures cantidad <= 0 ==> r == Fail(CantidadNoPositiva)
    ensures cantidad > 0 && cantidad > inv.cantidadReservada ==> r == Fail(ReservaInconsistente)
    ensures 0 < cantidad <= inv.cantidadReservada && cantidad > inv.stockFisico
      ==> r == Fail(StockFisicoInsuficiente)
    ensures r.Ok? ==> r.value == inv.(stockFisico := inv.stockFisico - cantidad,
                                      cantidadReservada := inv.cantidadReservada - cantidad)
    ensures r.Ok? ==> StockDisponible(r.value) == StockDisponible(inv)
    ensures Valido(inv) ==> !r.InvariantViolated?
    ensures Valido(inv) && r.Ok? ==> Valido(r.value)
    ensures Valido(inv) && 0 < cantidad <= inv.cantidadReservada ==> r.Ok?
  {
    if cantidad <= 0 then Fail(CantidadNoPositiva)
    else if cantidad > inv.cantidadReservada then Fail(ReservaInconsistente)
    else if cantidad > inv.stockFisico then Fail(StockFisicoInsuficiente)
    else Verificado(inv.(stockFisico := inv.stockFisico - cantidad,
                         cantidadReservada := inv.cantidadReservada - cantidad))
  }

  /** `IncrementarStock`: goods received, bounded by the maximum. */
  function IncrementarStock(inv: Inventario, cantidad: int): (r: Outcome<Inventario, InventarioError>)
    ensures cantidad <= 0 ==> r == Fail(CantidadNoPositiva)
    ensures cantidad > 0 && inv.stockFisico + cantidad > inv.stockMaximo ==> r == Fail(ExcederiaMaximo)
    ensures r.Ok? <==> cantidad > 0 && inv.stockFisico + cantidad <= inv.stockMaximo
    ensures r.Ok? ==> r.value == inv.(stockFisico := inv.stockFisico + cantidad)
    ensures Valido(inv) && r.Ok? ==> Valido(r.value)
    ensures !r.InvariantViolated?
  {
    if cantidad <= 0 then Fail(CantidadNoPositiva)
    else
      var nuevoStock := inv.stockFisico + cantidad;
      if nuevoStock > inv.stockMaximo then Fail(ExcederiaMaximo)
      else Ok(inv.(stockFisico := nuevoStock))
  }

  /** `IncrementarStock` with the stock and the argument as 32-bit
      integers, exactly as the source computes `StockFisico + cantidad`. */
  function IncrementarStockInt32(inv: Inventario, cantidad: int): (r: Outcome<Inventario, InventarioError>)
    requires MinInt32 <= inv.stockFisico <= MaxInt32 && MinInt32 <= cantidad <= MaxInt32
    ensures inv.stockFisico + cantidad <= MaxInt32 ==> r == IncrementarStock(inv, cantidad)
    ensures r.Ok? ==> r.value == inv.(stockFisico := r.value.stockFisico)
                      && (r.value.stockFisico - (inv.stockFisico + cantidad)) % Dos32 == 0
  {
    if cantidad <= 0 then Fail(CantidadNoPositiva)
    else
      var nuevoStock := SumaInt32(inv.stockFisico, cantidad);
      if nuevoStock > inv.stockMaximo then Fail(ExcederiaMaximo)
      else Ok(inv.(stockFisico := nuevoStock))
  }

  /** The overflow the maximum check lets through: on any valid record
      holding stock, adding `int.MaxValue` wraps to a negative stock,
      which is below the maximum and so is stored, breaking the record's
      invariant. The operation the rest of the model uses refuses it. */
  lemma IncrementoStockDesbordado(inv: Inventario)
    requires Valido(inv) && 0 < inv.stockFisico <= MaxInt32 && inv.stockMaximo <= MaxInt32
    ensures IncrementarStockInt32(inv, MaxInt32) == Ok(inv.(stockFisico := inv.stockFisico + MaxInt32 - Dos32))
    ensures IncrementarStockInt32(inv, MaxInt32).value.stockFisico < 0
    ensures !Valido(IncrementarStockInt32(inv, MaxInt32).value)
    ensures IncrementarStock(inv, MaxInt32) == Fail(ExcederiaMaximo)
  {
  }

  /** `DecrementarStock`: shrinkage; never below zero nor below what is held. */
  function DecrementarStock(inv: Inventario, cantidad: int): (r: Outcome<Inventario, InventarioError>)
    ensures cantidad <= 0 ==> r == Fail(CantidadNoPositiva)
    ensures cantidad > 0 && inv.stockFisico - cantidad < 0 ==> r == Fail(StockNegativo)
    ensures cantidad > 0 && 0 <= inv.stockFisico - cantidad < inv.cantidadReservada
      ==> r == Fail(DejariaReservasSinStock)
    ensures r.Ok? <==> cantidad > 0 && inv.stockFisico - cantidad >= 0
                        && inv.stockFisico - cantidad >= inv.cantidadReservada
    ensures r.Ok? ==> r.value == inv.(stockFisico := inv.stockFisico - cantidad)
    ensures Valido(inv) && r.Ok? ==> Valido(r.value)
    ensures !r.InvariantViolated?
  {
    if cantidad <= 0 then Fail(CantidadNoPositiva)
    else
      var nuevoStock := inv.stockFisico - cantidad;
      if nuevoStock < 0 then Fail(StockNegativo)
      else if nuevoStock < inv.cantidadReservada then Fail(DejariaReservasSinStock)
      else Ok(inv.(stockFisico := nuevoStock))
  }

  /** `AjustarStock`: sets the physical stock after a count. */
  function AjustarStock(inv: Inventario, nuevoStock: int, motivo: Option<string>)
    : (r: Outcome<Inventario, InventarioError>)
    ensures nuevoStock < 0 ==> r == Fail(StockNegativo)
    ensures 0 <= nuevoStock < inv.cantidadReservada ==> r == Fail(MenorQueReservado)
    ensures r.Ok? <==> nuevoStock >= 0 && nuevoStock >= inv.cantidadReservada && !IsNullOrWhiteSpace(motivo)
    ensures r.Ok? ==> r.value == inv.(stockFisico := nuevoStock)
    ensures Valido(inv) && r.Ok? ==> Valido(r.value)
    ensures !r.InvariantViolated?
  {
    if nuevoStock < 0 then Fail(StockNegativo)
    else if nuevoStock < inv.cantidadReservada then Fail(MenorQueReservado)
    else if IsNullOrWhiteSpace(motivo) then Fail(MotivoRequerido)
    else Ok(inv.(stockFisico := nuevoStock))
  }

  /** `ActualizarLimites`: new alert and ceiling thresholds. */
  function ActualizarLimites(inv: Inventario, stockMinimo: int, stockMaximo: int)
    : (r: Outcome<Inventario, InventarioError>)
    ensures r.Ok? <==> 0 <= stockMinimo < stockMaximo
    ensures stockMinimo < 0 ==> r == Fail(StockMinimoNegativo)
    ensures r.Ok? ==> r.value == inv.(stockMinimo := stockMinimo, stockMaximo := stockMaximo)
    ensures Valido(inv) && r.Ok? ==> Valido(r.value)
    ensures !r.InvariantViolated?
  {
    if stockMinimo < 0 then Fail(StockMinimoNegativo)
    else if stockMaximo <= stockMinimo then Fail(MaximoNoMayorQueMinimo)
    else Ok(inv.(stockMinimo := stockMinimo, stockMaximo := stockMaximo))
  }

  // ---------------------------------------------------------------------
  // Sequences of operations
  // ---------------------------------------------------------------------

  datatype Operacion =
    | Reservar(cantidad: int)
    | Liberar(cantidad: int)
    | Confirmar(cantidad: int)
    | Incrementar(cantidad: int)
    | Decrementar(cantidad: int)
    | Ajustar(nuevoStock: int, motivo: Option<string>)
    | Limites(minimo: int, maximo: int)

  function Aplicar(inv: Inventario, op: Operacion): Outcome<Inventario, InventarioError> {
    match op
    case Reservar(q) => ReservarStock(inv, q)
    case Liberar(q) => LiberarReserva(inv, q)
    case Confirmar(q) => ConfirmarReserva(inv, q)
    case Incrementar(q) => IncrementarStock(inv, q)
    case Decrementar(q) => DecrementarStock(inv, q)
    case Ajustar(n, m) => AjustarStock(inv, n, m)
    case Limites(lo, hi) => ActualizarLimites(inv, lo, hi)
  }

  /** The record after a run of operations: a failed operation leaves the
      record as it was; a fatal one stops the run. */
  function Ejecutar(inv: Inventario, ops: seq<Operacion>): Outcome<Inventario, InventarioError>
    decreases |ops|
  {
    if |ops| == 0 then Ok(inv)
    else
      match Aplicar(inv, ops[0])
      case Ok(next) => Ejecutar(next, ops[1..])
      case Fail(_) => Ejecutar(inv, ops[1..])
      case InvariantViolated => InvariantViolated
  }

  /** Every state reachable from a valid record is valid and no operation
      on the way reaches the fatal invariant check. */
  lemma {:induction false} EjecutarPreservaValido(inv: Inventario, ops: seq<Operacion>)
    requires Valido(inv)
    ensures Ejecutar(inv, ops).Ok?
    ensures Valido(Ejecutar(inv, ops).value)
    decreases |ops|
  {
    if |ops| > 0 {
      match Aplicar(inv, ops[0])
      case Ok(next) => EjecutarPreservaValido(next, ops[1..]);
      case Fail(_) => EjecutarPreservaValido(inv, ops[1..]);
      case InvariantViolated => assert false;
    }
  }

  /** Reserves `qs` one after another, skipping those that fail. Returns the
      record and the total of the reservations that succeeded. */
  function ReservarTodas(inv: Inventario, qs: seq<int>): (Inventario, int)
    decreases |qs|
  {
    if |qs| == 0 then (inv, 0)
    else
      match ReservarStock(inv, qs[0])
      case Ok(next) =>
        var (fin, total) := ReservarTodas(next, qs[1..]);
        (fin, total + qs[0])
      case _ => ReservarTodas(inv, qs[1..])
  }

  /** No oversell: whatever quantities are asked for, the reservations that
      succeed never total more than the stock that was available, and the
      physical stock is untouched. */
  lemma {:induction false} SinSobreventa(inv: Inventario, qs: seq<int>)
    requires Valido(inv)
    ensures var (fin, total) := ReservarTodas(inv, qs);
      && 0 <= total <= StockDisponible(inv)
      && fin.cantidadReservada == inv.cantidadReservada + total
      && fin.stockFisico == inv.stockFisico
      && Valido(fin)
    decreases |qs|
  {
    if |qs| > 0 {
      match ReservarStock(inv, qs[0])
      case Ok(next) => SinSobreventa(next, qs[1..]);
      case Fail(_) => SinSobreventa(inv, qs[1..]);
      case InvariantViolated => assert false;
    }
  }

  /** A fresh record never has more reserved than its initial stock. */
  lemma SinSobreventaDesdeCrear(productoId: Guid, inicial: int, minimo: int, maximo: int, qs: seq<int>)
    requires Crear(productoId, inicial, minimo, maximo).Success?
    ensures ReservarTodas(Crear(productoId, inicial, minimo, maximo).value, qs).1 <= inicial
  {
    SinSobreventa(Crear(productoId, inicial, minimo, maximo).value, qs);
  }

  /** Ten units on hand: reserving all ten leaves none available, and an
      eleventh unit is refused for lack of stock. */
  lemma EscenarioReservaCompleta(productoId: Guid)
    requires productoId != EmptyGuid
    ensures var inv := Crear(productoId, 10, 0, 1000).value;
      && ReservarStock(inv, 10).Ok?
      && StockDisponible(ReservarStock(inv, 10).value) == 0
      && ReservarStock(ReservarStock(inv, 10).value, 1) == Fail(StockInsuficiente)
  {
  }
}
