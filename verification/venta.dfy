/** The `Venta` aggregate: a sale that runs Nueva -> Abierta -> Pagada, and
    may end Cancelada. It owns its lines (`DetalleVenta`) and payments
    (`Pago`); every change goes through its operations. */
module Ventas {
  import opened Outcomes
  import opened Text
  import opened Sumas
  import opened Folios
  import opened Productos
  import DV = DetallesVenta
  import P = Pagos

  datatype EstadoVenta = Nueva | Abierta | Pagada | Cancelada

  datatype Venta = Venta(
    id: EntityId,
    folio: Folio,
    estado: EstadoVenta,
    usuarioId: Guid,
    motivoCancelacion: Option<string>,
    fechaCancelacion: Option<Instant>,
    fechaPago: Option<Instant>,
    tasaIVA: real,
    detalles: seq<DV.DetalleVenta>,
    pagos: seq<P.Pago>)

  datatype VentaError =
    | FolioRequerido
    | UsuarioRequerido
    | TasaFueraDeRango
    | VentaPagada
    | VentaCancelada
    | ProductoRequerido
    | CantidadNoPositiva
    | ProductoNoExiste
    | EstadoNoPermitePago(estado: EstadoVenta)
    | SinProductos
    | PagoInsuficiente
    | YaCancelada
    | UsarReversar
    | MotivoRequerido
    | SoloPagadas
    | Detalle(errorDetalle: DV.DetalleError)
    | PagoRechazado(errorPago: P.PagoError)

  // ---------------------------------------------------------------------
  // Derived amounts
  // ---------------------------------------------------------------------

  function Subtotal(v: Venta): real {
    Suma(v.detalles, DV.Subtotal)
  }

  function Impuestos(v: Venta): real {
    Suma(v.detalles, DV.Impuestos)
  }

  function Total(v: Venta): real {
    Subtotal(v) + Impuestos(v)
  }

  function TotalPagado(v: Venta): real {
    Suma(v.pagos, MontoPago)
  }

  function CambioTotal(v: Venta): real {
    Suma(v.pagos, CambioPago)
  }

  function MontoPago(p: P.Pago): real {
    p.monto
  }

  function CambioPago(p: P.Pago): real {
    p.cambio
  }

  function CantidadProductos(v: Venta): int {
    SumaCantidades(v.detalles)
  }

  function SumaCantidades(ds: seq<DV.DetalleVenta>): int
    decreases |ds|
  {
    if |ds| == 0 then 0 else ds[0].cantidad + SumaCantidades(ds[1..])
  }

  /** The quantity sum is the real-valued sum of the quantities, so the
      general facts about sums apply to it. */
  lemma {:induction false} SumaCantidadesReal(ds: seq<DV.DetalleVenta>)
    ensures SumaCantidades(ds) as real == Suma(ds, (d: DV.DetalleVenta) => d.cantidad as real)
    decreases |ds|
  {
    if |ds| > 0 {
      SumaCantidadesReal(ds[1..]);
    }
  }

  /** The sale total is the sum of the line totals; with valid lines the
      amounts are ordered `0 <= Impuestos`, `0 <= Subtotal <= Total`, and
      there are at least as many units as lines. */
  lemma Importes(v: Venta)
    ensures Total(v) == Suma(v.detalles, DV.Total)
    ensures (forall i | 0 <= i < |v.detalles| :: DV.Valido(v.detalles[i])) ==>
      0.0 <= Impuestos(v) && 0.0 <= Subtotal(v) <= Total(v) && CantidadProductos(v) >= |v.detalles|
  {
    SumaDeSuma(v.detalles, DV.Subtotal, DV.Impuestos, DV.Total);
    if forall i | 0 <= i < |v.detalles| :: DV.Valido(v.detalles[i]) {
      forall i | 0 <= i < |v.detalles| ensures DV.Subtotal(v.detalles[i]) >= 0.0 && DV.Impuestos(v.detalles[i]) >= 0.0 {
        DV.Importes(v.detalles[i]);
      }
      SumaNoNegativa(v.detalles, DV.Subtotal);
      SumaNoNegativa(v.detalles, DV.Impuestos);
      CantidadesAlMenosLineas(v.detalles);
    }
  }

  lemma {:induction false} CantidadesAlMenosLineas(ds: seq<DV.DetalleVenta>)
    requires forall i | 0 <= i < |ds| :: ds[i].cantidad >= 1
    ensures SumaCantidades(ds) >= |ds|
    decreases |ds|
  {
    if |ds| > 0 {
      CantidadesAlMenosLineas(ds[1..]);
    }
  }

  // ---------------------------------------------------------------------
  // Invariants
  // ---------------------------------------------------------------------

  /** The five checks of `ValidarInvariantes`. */
  predicate Consistente(v: Venta) {
    && !(v.estado == Pagada && TotalPagado(v) < Total(v))
    && !((v.estado == Pagada || v.estado == Cancelada) && |v.detalles| == 0)
    && !(exists i | 0 <= i < |v.detalles| :: v.detalles[i].cantidad <= 0)
    && !(exists i | 0 <= i < |v.detalles| :: v.detalles[i].precioUnitario < 0.0)
    && !(v.estado == Pagada && |v.pagos| == 0)
  }

  function Verificado(v: Venta): (r: Outcome<Venta, VentaError>)
    ensures r.Ok? <==> Consistente(v)
    ensures r.Ok? ==> r.value == v
    ensures !r.Fail?
  {
    if Consistente(v) then Ok(v) else InvariantViolated
  }

  /** No product appears on two lines. */
  predicate ProductosDistintos(ds: seq<DV.DetalleVenta>) {
    forall i, j | 0 <= i < j < |ds| :: ds[i].productoId != ds[j].productoId
  }

  /** What holds of every sale the operations can reach (the invariant
      check's "finished sale has lines" rule is not among them; see
      `CancelarDesdeNueva`). */
  predicate Valida(v: Venta) {
    && 0.0 <= v.tasaIVA <= 1.0
    && (forall i | 0 <= i < |v.detalles| :: DV.Valido(v.detalles[i]))
    && ProductosDistintos(v.detalles)
    && (v.estado == Nueva ==> |v.detalles| == 0 && |v.pagos| == 0)
    && (v.estado == Abierta ==> |v.detalles| >= 1 && |v.pagos| == 0)
    && (v.estado == Pagada ==> |v.detalles| >= 1 && |v.pagos| >= 1 && TotalPagado(v) >= Total(v))
  }

  /** The first line of product `productoId` (`FirstOrDefault`). */
  function IndiceDe(ds: seq<DV.DetalleVenta>, productoId: Guid): (r: Option<nat>)
    ensures r.None? <==> forall i | 0 <= i < |ds| :: ds[i].productoId != productoId
    ensures r.Some? ==> r.value < |ds| && ds[r.value].productoId == productoId
    ensures r.Some? ==> forall j | 0 <= j < r.value :: ds[j].productoId != productoId
    decreases |ds|
  {
    if |ds| == 0 then None
    else if ds[0].productoId == productoId then Some(0)
    else
      var r := IndiceDe(ds[1..], productoId);
      assert forall i | 1 <= i < |ds| :: ds[i] == ds[1..][i - 1];
      if r.None? then None else Some(r.value + 1)
  }

  // ---------------------------------------------------------------------
  // Operations
  // ---------------------------------------------------------------------

  /** `Venta.Crear` (the default rate of 0.16 is the caller's business). */
  function Crear(id: EntityId, folio: Option<Folio>, usuarioId: Guid, tasaIVA: real)
    : (r: Result<Venta, VentaError>)
    ensures r.Success? <==> folio.Some? && usuarioId != EmptyGuid && 0.0 <= tasaIVA <= 1.0
    ensures folio.None? ==> r == Failure(FolioRequerido)
    ensures folio.Some? && usuarioId == EmptyGuid ==> r == Failure(UsuarioRequerido)
    ensures r.Success? ==> r.value.estado == Nueva && r.value.detalles == [] && r.value.pagos == []
    ensures r.Success? ==> Valida(r.value) && Total(r.value) == 0.0
    ensures r.Success? ==> r.value.id == id && r.value.folio == folio.value && r.value.tasaIVA == tasaIVA
  {
    if folio.None? then Failure(FolioRequerido)
    else if usuarioId == EmptyGuid then Failure(UsuarioRequerido)
    else if tasaIVA < 0.0 || tasaIVA > 1.0 then Failure(TasaFueraDeRango)
    else Success(Venta(id, folio.value, Nueva, usuarioId, None, None, None, tasaIVA, [], []))
  }

  /** The state guard shared by the three line operations. */
  function Bloqueo(v: Venta): (r: Option<VentaError>)
    ensures r.None? <==> v.estado.Nueva? || v.estado.Abierta?
  {
    if v.estado == Pagada then Some(VentaPagada)
    else if v.estado == Cancelada then Some(VentaCancelada)
    else None
  }

  /** `AgregarProducto`: merges into the product's line if it has one,
      otherwise adds a line with a fresh snapshot. */
  function AgregarProducto(v: Venta, producto: Option<Producto>, cantidad: int): (r: Outcome<Venta, VentaError>)
    ensures v.estado == Pagada ==> r == Fail(VentaPagada)
    ensures v.estado == Cancelada ==> r == Fail(VentaCancelada)
    ensures Bloqueo(v).None? && producto.None? ==> r == Fail(ProductoRequerido)
    ensures Bloqueo(v).None? && producto.Some? && cantidad <= 0 ==> r == Fail(CantidadNoPositiva)
    ensures r.Ok? ==> r.value.estado == Abierta && r.value.pagos == v.pagos && r.value.id == v.id
    ensures r.Ok? ==> CantidadProductos(r.value) == CantidadProductos(v) + cantidad
    ensures r.Ok? && IndiceDe(v.detalles, producto.value.id).Some? ==>
      var i := IndiceDe(v.detalles, producto.value.id).value;
      r.value.detalles == v.detalles[i := v.detalles[i].(cantidad := v.detalles[i].cantidad + cantidad)]
    ensures r.Ok? && IndiceDe(v.detalles, producto.value.id).None? ==>
      && |r.value.detalles| == |v.detalles| + 1
      && r.value.detalles[..|v.detalles|] == v.detalles
      && DV.EsInstantanea(r.value.detalles[|v.detalles|], producto.value)
      && r.value.detalles[|v.detalles|].cantidad == cantidad
    ensures Valida(v) && producto.Some? && PreciosValidos(producto.value) ==> !r.InvariantViolated?
    ensures Valida(v) && r.Ok? ==> Valida(r.value)
  {
    if Bloqueo(v).Some? then Fail(Bloqueo(v).value)
    else if producto.None? then Fail(ProductoRequerido)
    else if cantidad <= 0 then Fail(CantidadNoPositiva)
    else
      match IndiceDe(v.detalles, producto.value.id)
      case Some(i) => SumarALinea(v, i, cantidad)
      case None => AgregarLinea(v, producto.value, cantidad)
  }

  /** The merge branch of `AgregarProducto`: line `i` grows by `cantidad`. */
  function SumarALinea(v: Venta, i: nat, cantidad: int): (r: Outcome<Venta, VentaError>)
    requires i < |v.detalles| && (v.estado.Nueva? || v.estado.Abierta?)
    ensures cantidad > 0 && v.detalles[i].cantidad + cantidad > DV.CantidadMaxima
            ==> r == Fail(Detalle(DV.CantidadExcedeMaximo))
    ensures r.Ok? ==> r.value.estado == Abierta && r.value.pagos == v.pagos && r.value.id == v.id
    ensures r.Ok? ==> r.value.detalles == v.detalles[i := v.detalles[i].(cantidad := v.detalles[i].cantidad + cantidad)]
    ensures r.Ok? ==> CantidadProductos(r.value) == CantidadProductos(v) + cantidad
    ensures Valida(v) ==> !r.InvariantViolated? && (r.Ok? ==> Valida(r.value))
  {
    var a := DV.IncrementarCantidad(v.detalles[i], cantidad);
    if a.Ok? then
      var ds := v.detalles[i := a.value];
      CantidadesTrasActualizar(v.detalles, i, a.value);
      DistintosTrasActualizar(v.detalles, i, a.value);
      Verificado(v.(detalles := ds, estado := Abierta))
    else Fail(Detalle(a.error))
  }

  /** The merge branch as the source computes it, with the line's quantity
      and the argument as 32-bit integers. */
  function SumarALineaInt32(v: Venta, i: nat, cantidad: int): (r: Outcome<Venta, VentaError>)
    requires i < |v.detalles| && (v.estado.Nueva? || v.estado.Abierta?)
    requires MinInt32 <= v.detalles[i].cantidad <= MaxInt32 && MinInt32 <= cantidad <= MaxInt32
    ensures v.detalles[i].cantidad + cantidad <= MaxInt32 ==> r == SumarALinea(v, i, cantidad)
  {
    var a := DV.IncrementarCantidadInt32(v.detalles[i], cantidad);
    if a.Ok? then Verificado(v.(detalles := v.detalles[i := a.value], estado := Abierta))
    else Fail(Detalle(a.error))
  }

  /** Adding `int.MaxValue` units of a product already on the sale with one
      unit: as written the line's quantity wraps to `int.MinValue`, passes
      the 9999 guard, and the invariant check then throws; the merge the
      rest of the model uses refuses the quantity instead. */
  lemma AgregarDesbordado(v: Venta, i: nat)
    requires Valida(v) && v.estado == Abierta && i < |v.detalles| && v.detalles[i].cantidad == 1
    ensures SumarALineaInt32(v, i, MaxInt32) == InvariantViolated
    ensures SumarALinea(v, i, MaxInt32) == Fail(Detalle(DV.CantidadExcedeMaximo))
  {
    DV.IncrementoDesbordado(v.detalles[i]);
    var a := DV.IncrementarCantidadInt32(v.detalles[i], MaxInt32).value;
    var w := v.(detalles := v.detalles[i := a], estado := Abierta);
    assert w.detalles[i].cantidad <= 0;
    assert !Consistente(w);
  }

  /** The new-line branch of `AgregarProducto`. */
  function AgregarLinea(v: Venta, p: Producto, cantidad: int): (r: Outcome<Venta, VentaError>)
    requires v.estado.Nueva? || v.estado.Abierta?
    requires forall j | 0 <= j < |v.detalles| :: v.detalles[j].productoId != p.id
    ensures r.Ok? ==> r.value.estado == Abierta && r.value.pagos == v.pagos && r.value.id == v.id
    ensures r.Ok? ==>
      && |r.value.detalles| == |v.detalles| + 1
      && r.value.detalles[..|v.detalles|] == v.detalles
      && DV.EsInstantanea(r.value.detalles[|v.detalles|], p)
      && r.value.detalles[|v.detalles|].cantidad == cantidad
    ensures r.Ok? ==> CantidadProductos(r.value) == CantidadProductos(v) + cantidad
    ensures Valida(v) && PreciosValidos(p) ==> !r.InvariantViolated?
    ensures Valida(v) && r.Ok? ==> Valida(r.value)
  {
    match DV.Crear(v.id, Some(p), cantidad, v.tasaIVA)
    case Success(d) =>
      var ds := v.detalles + [d];
      assert ds[..|v.detalles|] == v.detalles;
      CantidadesTrasAgregar(v.detalles, d);
      DistintosTrasAgregar(v.detalles, d);
      Verificado(v.(detalles := ds, estado := Abierta))
    case Failure(e) => Fail(Detalle(e))
  }

  lemma CantidadesTrasActualizar(ds: seq<DV.DetalleVenta>, i: nat, d: DV.DetalleVenta)
    requires i < |ds|
    ensures SumaCantidades(ds[i := d]) == SumaCantidades(ds) - ds[i].cantidad + d.cantidad
  {
    SumaCantidadesReal(ds);
    SumaCantidadesReal(ds[i := d]);
    SumaActualizar(ds, i, d, (x: DV.DetalleVenta) => x.cantidad as real);
  }

  lemma CantidadesTrasAgregar(ds: seq<DV.DetalleVenta>, d: DV.DetalleVenta)
    ensures SumaCantidades(ds + [d]) == SumaCantidades(ds) + d.cantidad
  {
    SumaCantidadesReal(ds);
    SumaCantidadesReal(ds + [d]);
    SumaAgregar(ds, d, (x: DV.DetalleVenta) => x.cantidad as real);
  }

  lemma CantidadesTrasQuitar(ds: seq<DV.DetalleVenta>, i: nat)
    requires i < |ds|
    ensures SumaCantidades(SinIndice(ds, i)) == SumaCantidades(ds) - ds[i].cantidad
  {
    SumaCantidadesReal(ds);
    SumaCantidadesReal(SinIndice(ds, i));
    SumaQuitar(ds, i, (x: DV.DetalleVenta) => x.cantidad as real);
  }

  /** `List.Remove` of the element at index `i`. */
  function SinIndice<T>(xs: seq<T>, i: nat): seq<T>
    requires i < |xs|
  {
    xs[..i] + xs[i + 1..]
  }

  /** Removing line `i` shifts the later lines down by one; the remaining
      lines keep their validity and distinct products, and the removed
      product is gone. */
  lemma QuitarIndice(ds: seq<DV.DetalleVenta>, i: nat)
    requires i < |ds|
    ensures |SinIndice(ds, i)| == |ds| - 1
    ensures forall j | 0 <= j < |ds| - 1 :: SinIndice(ds, i)[j] == if j < i then ds[j] else ds[j + 1]
    ensures (forall j | 0 <= j < |ds| :: DV.Valido(ds[j])) ==>
      forall j | 0 <= j < |ds| - 1 :: DV.Valido(SinIndice(ds, i)[j])
    ensures ProductosDistintos(ds) ==> ProductosDistintos(SinIndice(ds, i))
    ensures ProductosDistintos(ds) ==>
      forall j | 0 <= j < |ds| - 1 :: SinIndice(ds, i)[j].productoId != ds[i].productoId
  {
    var r := SinIndice(ds, i);
    assert forall j | 0 <= j < |r| :: r[j] == if j < i then ds[j] else ds[j + 1];
    if ProductosDistintos(ds) {
      forall a, b | 0 <= a < b < |r| ensures r[a].productoId != r[b].productoId {
        var a' := if a < i then a else a + 1;
        var b' := if b < i then b else b + 1;
        assert r[a] == ds[a'] && r[b] == ds[b'] && a' < b';
      }
    }
  }

  lemma DistintosTrasActualizar(ds: seq<DV.DetalleVenta>, i: nat, d: DV.DetalleVenta)
    requires i < |ds| && d.productoId == ds[i].productoId
    ensures ProductosDistintos(ds) ==> ProductosDistintos(ds[i := d])
  {
  }

  lemma DistintosTrasAgregar(ds: seq<DV.DetalleVenta>, d: DV.DetalleVenta)
    requires forall i | 0 <= i < |ds| :: ds[i].productoId != d.productoId
    ensures ProductosDistintos(ds) ==> ProductosDistintos(ds + [d])
  {
  }

  /** `QuitarProducto`: removes the product's line; a sale left without
      lines is Nueva again. */
  function QuitarProducto(v: Venta, productoId: Guid): (r: Outcome<Venta, VentaError>)
    ensures v.estado == Pagada ==> r == Fail(VentaPagada)
    ensures v.estado == Cancelada ==> r == Fail(VentaCancelada)
    ensures Bloqueo(v).None? ==> (r.Ok? <==> IndiceDe(v.detalles, productoId).Some?)
    ensures r.Ok? ==>
      var i := IndiceDe(v.detalles, productoId).value;
      && r.value.detalles == SinIndice(v.detalles, i)
      && CantidadProductos(r.value) == CantidadProductos(v) - v.detalles[i].cantidad
    ensures r.Ok? && r.value.detalles == [] ==> r.value.estado == Nueva
    ensures r.Ok? ==> r.value.pagos == v.pagos && (r.value.detalles != [] ==> r.value.estado == v.estado)
    ensures Valida(v) && r.Ok? ==>
      (Valida(r.value) && forall j | 0 <= j < |r.value.detalles| :: r.value.detalles[j].productoId != productoId)
    ensures !r.InvariantViolated?
  {
    if Bloqueo(v).Some? then Fail(Bloqueo(v).value)
    else
      match IndiceDe(v.detalles, productoId)
      case None => Fail(ProductoNoExiste)
      case Some(i) =>
        var ds := SinIndice(v.detalles, i);
        CantidadesTrasQuitar(v.detalles, i);
        QuitarIndice(v.detalles, i);
        Ok(v.(detalles := ds, estado := if |ds| == 0 then Nueva else v.estado))
  }

  /** `ModificarCantidadProducto`: sets the quantity of the product's line. */
  function ModificarCantidadProducto(v: Venta, productoId: Guid, nuevaCantidad: int)
    : (r: Outcome<Venta, VentaError>)
    ensures v.estado == Pagada ==> r == Fail(VentaPagada)
    ensures v.estado == Cancelada ==> r == Fail(VentaCancelada)
    ensures Bloqueo(v).None? && IndiceDe(v.detalles, productoId).None? ==> r == Fail(ProductoNoExiste)
    ensures Bloqueo(v).None? && IndiceDe(v.detalles, productoId).Some? ==>
      (r.Ok? <==> DV.CantidadValida(nuevaCantidad))
    ensures r.Ok? ==>
      var i := IndiceDe(v.detalles, productoId).value;
      r.value == v.(detalles := v.detalles[i := v.detalles[i].(cantidad := nuevaCantidad)])
    ensures Valida(v) && r.Ok? ==> Valida(r.value)
    ensures !r.InvariantViolated?
  {
    if Bloqueo(v).Some? then Fail(Bloqueo(v).value)
    else
      match IndiceDe(v.detalles, productoId)
      case None => Fail(ProductoNoExiste)
      case Some(i) =>
        var a := DV.EstablecerCantidad(v.detalles[i], nuevaCantidad);
        if a.Ok? then
          DistintosTrasActualizar(v.detalles, i, a.value);
          Ok(v.(detalles := v.detalles[i := a.value]))
        else Fail(Detalle(a.error))
  }

  /** `RegistrarPago`: a single payment closes an open sale. */
  function RegistrarPago(v: Venta, monto: real, tipoPago: P.TipoPago, referencia: Option<string>, now: Instant)
    : (r: Outcome<Venta, VentaError>)
    ensures v.estado != Abierta ==> r == Fail(EstadoNoPermitePago(v.estado))
    ensures v.estado == Abierta && |v.detalles| == 0 ==> r == Fail(SinProductos)
    ensures v.estado == Abierta && |v.detalles| > 0 && monto < Total(v) ==> r == Fail(PagoInsuficiente)
    ensures r.Ok? ==> v.estado == Abierta && |v.detalles| > 0 && monto >= Total(v)
    ensures r.Ok? ==> (r.value.estado == Pagada && r.value.fechaPago == Some(now)
                       && r.value.detalles == v.detalles && |r.value.pagos| == |v.pagos| + 1
                       && r.value.pagos[..|v.pagos|] == v.pagos)
    ensures r.Ok? ==> var p := r.value.pagos[|v.pagos|];
      p.monto == monto && p.tipoPago == tipoPago && p.monto == Total(v) + p.cambio
    ensures r.Ok? ==> TotalPagado(r.value) == TotalPagado(v) + monto
    ensures Valida(v) ==> !r.InvariantViolated?
    ensures Valida(v) && r.Ok? ==> Valida(r.value) && TotalPagado(r.value) >= Total(r.value)
  {
    if v.estado != Abierta then Fail(EstadoNoPermitePago(v.estado))
    else if |v.detalles| == 0 then Fail(SinProductos)
    else if monto < Total(v) then Fail(PagoInsuficiente)
    else
      match P.Crear(v.id, monto, tipoPago, Total(v), referencia, now)
      case Failure(e) => Fail(PagoRechazado(e))
      case Success(p) =>
        SumaAgregar(v.pagos, p, MontoPago);
        var w := v.(pagos := v.pagos + [p], estado := Pagada, fechaPago := Some(now));
        assert Valida(v) ==> Consistente(w);
        Verificado(w)
  }

  /** `Cancelar`: abandons a sale that has not been paid. */
  function Cancelar(v: Venta, motivo: Option<string>, now: Instant): (r: Outcome<Venta, VentaError>)
    ensures v.estado == Cancelada ==> r == Fail(YaCancelada)
    ensures v.estado == Pagada ==> r == Fail(UsarReversar)
    ensures r.Ok? <==> (v.estado.Nueva? || v.estado.Abierta?) && !IsNullOrWhiteSpace(motivo)
    ensures r.Ok? ==> r.value == v.(estado := Cancelada, motivoCancelacion := Some(Trim(motivo.value)),
                                    fechaCancelacion := Some(now))
    ensures Valida(v) && r.Ok? ==> Valida(r.value)
    ensures !r.InvariantViolated?
  {
    if v.estado == Cancelada then Fail(YaCancelada)
    else if v.estado == Pagada then Fail(UsarReversar)
    else if IsNullOrWhiteSpace(motivo) then Fail(MotivoRequerido)
    else Ok(v.(estado := Cancelada, motivoCancelacion := Some(Trim(motivo.value)), fechaCancelacion := Some(now)))
  }

  /** `Reversar`: cancels a paid sale. Its second state check is
      unreachable after the first and is left out. */
  function Reversar(v: Venta, motivo: Option<string>, now: Instant): (r: Outcome<Venta, VentaError>)
    ensures v.estado != Pagada ==> r == Fail(SoloPagadas)
    ensures r.Ok? <==> v.estado == Pagada && !IsNullOrWhiteSpace(motivo)
    ensures r.Ok? ==> r.value == v.(estado := Cancelada, motivoCancelacion := Some(Trim(motivo.value)),
                                    fechaCancelacion := Some(now))
    ensures r.Ok? ==> r.value.detalles == v.detalles && r.value.pagos == v.pagos
    ensures Valida(v) && r.Ok? ==> Valida(r.value) && Consistente(r.value)
    ensures !r.InvariantViolated?
  {
    if v.estado != Pagada then Fail(SoloPagadas)
    else if IsNullOrWhiteSpace(motivo) then Fail(MotivoRequerido)
    else Ok(v.(estado := Cancelada, motivoCancelacion := Some(Trim(motivo.value)), fechaCancelacion := Some(now)))
  }

  // ---------------------------------------------------------------------
  // Sequences of operations
  // ---------------------------------------------------------------------

  datatype Operacion =
    | Agregar(producto: Option<Producto>, cantidad: int)
    | Quitar(productoId: Guid)
    | Modificar(productoId: Guid, cantidad: int)
    | Pagar(monto: real, tipoPago: P.TipoPago, referencia: Option<string>, now: Instant)
    | OpCancelar(motivo: Option<string>, now: Instant)
    | OpReversar(motivo: Option<string>, now: Instant)

  function Aplicar(v: Venta, op: Operacion): Outcome<Venta, VentaError> {
    match op
    case Agregar(p, q) => AgregarProducto(v, p, q)
    case Quitar(id) => QuitarProducto(v, id)
    case Modificar(id, q) => ModificarCantidadProducto(v, id, q)
    case Pagar(m, t, ref, now) => RegistrarPago(v, m, t, ref, now)
    case OpCancelar(m, now) => Cancelar(v, m, now)
    case OpReversar(m, now) => Reversar(v, m, now)
  }

  /** Products offered to the sale satisfy the catalogue's price rule. */
  predicate ProductosCatalogo(ops: seq<Operacion>) {
    forall i | 0 <= i < |ops| && ops[i].Agregar? && ops[i].producto.Some? :: PreciosValidos(ops[i].producto.value)
  }

  function Ejecutar(v: Venta, ops: seq<Operacion>): Outcome<Venta, VentaError>
    decreases |ops|
  {
    if |ops| == 0 then Ok(v)
    else
      match Aplicar(v, ops[0])
      case Ok(w) => Ejecutar(w, ops[1..])
      case Fail(_) => Ejecutar(v, ops[1..])
      case InvariantViolated => InvariantViolated
  }

  /** Every sale reachable from a valid one through catalogue products is
      valid and never trips the invariant check: a paid sale has lines, a
      payment and `TotalPagado >= Total`, and all lines have quantities in
      1..9999 and non-negative prices. */
  lemma {:induction false} EjecutarPreservaValida(v: Venta, ops: seq<Operacion>)
    requires Valida(v) && ProductosCatalogo(ops)
    ensures Ejecutar(v, ops).Ok? && Valida(Ejecutar(v, ops).value)
    decreases |ops|
  {
    if |ops| > 0 {
      assert ProductosCatalogo(ops[1..]) by {
        forall i | 0 <= i < |ops[1..]| ensures ops[1..][i] == ops[i + 1] { }
      }
      match Aplicar(v, ops[0])
      case Ok(w) => EjecutarPreservaValida(w, ops[1..]);
      case Fail(_) => EjecutarPreservaValida(v, ops[1..]);
      case InvariantViolated => assert false;
    }
  }

  /** Cancelada is terminal: every operation fails on it. */
  lemma CanceladaTerminal(v: Venta, op: Operacion)
    requires v.estado == Cancelada
    ensures Aplicar(v, op).Fail?
  {
  }

  /** A paid sale can only be reversed. */
  lemma PagadaSoloReversa(v: Venta, op: Operacion)
    requires v.estado == Pagada && !op.OpReversar?
    ensures Aplicar(v, op).Fail?
  {
  }

  /** The invariant check's "a finished sale has lines" rule is not kept:
      cancelling a new sale leaves a Cancelada sale with no lines, which the
      check would reject if it ran. */
  lemma CancelarDesdeNueva(id: EntityId, folio: Folio, usuarioId: Guid, now: Instant)
    requires usuarioId != EmptyGuid
    ensures var v := Crear(id, Some(folio), usuarioId, 0.16).value;
      var r := Cancelar(v, Some("cliente se fue"), now);
      && r.Ok? && r.value.estado == Cancelada && r.value.detalles == []
      && !Consistente(r.value)
  {
    var v := Crear(id, Some(folio), usuarioId, 0.16).value;
    assert !IsNullOrWhiteSpace(Some("cliente se fue")) by {
      assert !IsWhiteSpace("cliente se fue"[0]);
    }
  }

  /** A complete sale: two units at 10.00 with 16% VAT come to 20.00 + 3.20
      = 23.20, and 25.00 in cash closes it with 1.80 change. */
  lemma EscenarioVentaEfectivo(id: EntityId, folio: Folio, usuarioId: Guid, p: Producto, now: Instant)
    requires usuarioId != EmptyGuid && p.activo && p.gravadoIVA && p.precioVenta == 10.0
    ensures var v0 := Crear(id, Some(folio), usuarioId, 0.16).value;
      var v1 := AgregarProducto(v0, Some(p), 2);
      && v1.Ok? && v1.value.estado == Abierta
      && Subtotal(v1.value) == 20.0 && Impuestos(v1.value) == 3.2 && Total(v1.value) == 23.2
      && var v2 := RegistrarPago(v1.value, 25.0, P.Efectivo, None, now);
      && v2.Ok? && v2.value.estado == Pagada
      && v2.value.pagos[0].cambio == 1.8 && CambioTotal(v2.value) == 1.8
  {
    var v0 := Crear(id, Some(folio), usuarioId, 0.16).value;
    var d := DV.DetalleVenta(id, p.id, p.nombre, p.codigoBarras.valor, 2, 10.0, true, 0.16);
    var w1 := v0.(detalles := [d], estado := Abierta);
    assert [d][1..] == [];
    assert Subtotal(w1) == 20.0 && Impuestos(w1) == 3.2;
    assert AgregarProducto(v0, Some(p), 2) == Ok(w1);
    var pago := P.Pago(id, 25.0, P.Efectivo, now, "", 1.8);
    var w2 := w1.(pagos := [pago], estado := Pagada, fechaPago := Some(now));
    assert [pago][1..] == [];
    assert Suma([pago], MontoPago) == MontoPago(pago) + Suma([pago][1..], MontoPago);
    assert Suma([pago], CambioPago) == CambioPago(pago) + Suma([pago][1..], CambioPago);
    assert TotalPagado(w2) == 25.0 && CambioTotal(w2) == 1.8;
    assert RegistrarPago(w1, 25.0, P.Efectivo, None, now) == Ok(w2);
  }
}
