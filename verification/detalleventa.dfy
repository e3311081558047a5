/** `DetalleVenta`: one line of a sale. It keeps a snapshot of the product
    as it was when the line was created, so later catalogue changes do not
    alter the sale. */
module DetallesVenta {
  import opened Outcomes
  import opened CodigosBarras
  import opened Productos
  import Text

  datatype DetalleVenta = DetalleVenta(
    ventaId: Guid,
    productoId: Guid,
    nombreProducto: string,
    codigoBarras: string,
    cantidad: int,
    precioUnitario: real,
    gravadoIVA: bool,
    tasaIVA: real)

  datatype DetalleError =
    | VentaRequerida
    | ProductoRequerido
    | ProductoInactivo
    | CantidadNoPositiva
    | CantidadExcedeMaximo
    | TasaFueraDeRango
    | CantidadResultanteNoPositiva

  const CantidadMaxima: int := 9999

  predicate CantidadValida(cantidad: int) {
    1 <= cantidad <= CantidadMaxima
  }

  predicate TasaValida(tasa: real) {
    0.0 <= tasa <= 1.0
  }

  /** The state every line the factory builds is in, and that the three
      quantity operations keep. */
  predicate Valido(d: DetalleVenta) {
    CantidadValida(d.cantidad) && TasaValida(d.tasaIVA) && d.precioUnitario >= 0.0
  }

  function Subtotal(d: DetalleVenta): real {
    d.cantidad as real * d.precioUnitario
  }

  function Impuestos(d: DetalleVenta): real {
    if d.gravadoIVA then Subtotal(d) * d.tasaIVA else 0.0
  }

  function Total(d: DetalleVenta): real {
    Subtotal(d) + Impuestos(d)
  }

  /** The line amounts: the total is the subtotal scaled by the rate when
      the product is taxed, and a valid line has
      `0 <= Impuestos <= Subtotal <= Total`. */
  lemma Importes(d: DetalleVenta)
    ensures Total(d) == if d.gravadoIVA then Subtotal(d) * (1.0 + d.tasaIVA) else Subtotal(d)
    ensures Valido(d) ==> 0.0 <= Impuestos(d) <= Subtotal(d) <= Total(d)
    ensures Valido(d) && !d.gravadoIVA ==> Total(d) == Subtotal(d)
  {
    if Valido(d) {
      assert Subtotal(d) >= 0.0;
      if d.gravadoIVA {
        assert Subtotal(d) * d.tasaIVA <= Subtotal(d) * 1.0;
      }
    }
  }

  /** The snapshot a line takes of its product. */
  predicate EsInstantanea(d: DetalleVenta, p: Producto) {
    && d.productoId == p.id
    && d.nombreProducto == p.nombre
    && d.codigoBarras == p.codigoBarras.valor
    && d.precioUnitario == p.precioVenta
    && d.gravadoIVA == p.gravadoIVA
  }

  /** `DetalleVenta.Crear` (the default rate of 0.16 is the caller's
      business). */
  function Crear(ventaId: Guid, producto: Option<Producto>, cantidad: int, tasaIVA: real)
    : (r: Result<DetalleVenta, DetalleError>)
    ensures r.Success? <==>
      && ventaId != EmptyGuid && producto.Some? && producto.value.activo
      && CantidadValida(cantidad) && TasaValida(tasaIVA)
    ensures ventaId == EmptyGuid ==> r == Failure(VentaRequerida)
    ensures ventaId != EmptyGuid && producto.None? ==> r == Failure(ProductoRequerido)
    ensures r.Success? ==> EsInstantanea(r.value, producto.value)
    ensures r.Success? ==> r.value.ventaId == ventaId && r.value.cantidad == cantidad && r.value.tasaIVA == tasaIVA
    ensures r.Success? && PreciosValidos(producto.value) ==> Valido(r.value) && r.value.precioUnitario > 0.0
  {
    if ventaId == EmptyGuid then Failure(VentaRequerida)
    else if producto.None? then Failure(ProductoRequerido)
    else if !producto.value.activo then Failure(ProductoInactivo)
    else if cantidad <= 0 then Failure(CantidadNoPositiva)
    else if cantidad > CantidadMaxima then Failure(CantidadExcedeMaximo)
    else if tasaIVA < 0.0 || tasaIVA > 1.0 then Failure(TasaFueraDeRango)
    else
      var p := producto.value;
      Success(DetalleVenta(ventaId, p.id, p.nombre, p.codigoBarras.valor, cantidad,
                           p.precioVenta, p.gravadoIVA, tasaIVA))
  }

  /** `IncrementarCantidad(k)`. */
  function IncrementarCantidad(d: DetalleVenta, k: int): (r: Outcome<DetalleVenta, DetalleError>)
    ensures r.Ok? <==> k > 0 && d.cantidad + k <= CantidadMaxima
    ensures k <= 0 ==> r == Fail(CantidadNoPositiva)
    ensures r.Ok? ==> r.value.cantidad == d.cantidad + k && r.value.(cantidad := d.cantidad) == d
    ensures Valido(d) && r.Ok? ==> Valido(r.value)
    ensures !r.InvariantViolated?
  {
    if k <= 0 then Fail(CantidadNoPositiva)
    else
      var nueva := d.cantidad + k;
      if nueva > CantidadMaxima then Fail(CantidadExcedeMaximo)
      else Ok(d.(cantidad := nueva))
  }

  /** `DecrementarCantidad(k)`: a line cannot drop to zero; it has to be
      removed instead. */
  function DecrementarCantidad(d: DetalleVenta, k: int): (r: Outcome<DetalleVenta, DetalleError>)
    ensures r.Ok? <==> k > 0 && d.cantidad - k > 0
    ensures k <= 0 ==> r == Fail(CantidadNoPositiva)
    ensures k > 0 && d.cantidad - k <= 0 ==> r == Fail(CantidadResultanteNoPositiva)
    ensures r.Ok? ==> r.value.cantidad == d.cantidad - k && r.value.(cantidad := d.cantidad) == d
    ensures Valido(d) && r.Ok? ==> Valido(r.value)
    ensures !r.InvariantViolated?
  {
    if k <= 0 then Fail(CantidadNoPositiva)
    else
      var nueva := d.cantidad - k;
      if nueva <= 0 then Fail(CantidadResultanteNoPositiva)
      else Ok(d.(cantidad := nueva))
  }

  /** `EstablecerCantidad(n)`. */
  function EstablecerCantidad(d: DetalleVenta, n: int): (r: Outcome<DetalleVenta, DetalleError>)
    ensures r.Ok? <==> CantidadValida(n)
    ensures n <= 0 ==> r == Fail(CantidadNoPositiva)
    ensures n > CantidadMaxima ==> r == Fail(CantidadExcedeMaximo)
    ensures r.Ok? ==> r.value.cantidad == n && r.value.(cantidad := d.cantidad) == d
    ensures Valido(d) && r.Ok? ==> Valido(r.value)
    ensures !r.InvariantViolated?
  {
    if n <= 0 then Fail(CantidadNoPositiva)
    else if n > CantidadMaxima then Fail(CantidadExcedeMaximo)
    else Ok(d.(cantidad := n))
  }

  /** Incrementing and then decrementing by the same amount gives the line
      back, and so does decrementing and then incrementing. */
  lemma IncrementarDecrementar(d: DetalleVenta, k: int)
    requires Valido(d)
    ensures IncrementarCantidad(d, k).Ok? ==> DecrementarCantidad(IncrementarCantidad(d, k).value, k) == Ok(d)
    ensures DecrementarCantidad(d, k).Ok? ==> IncrementarCantidad(DecrementarCantidad(d, k).value, k) == Ok(d)
  {
  }

  // ---------------------------------------------------------------------
  // 32-bit arithmetic of `IncrementarCantidad` as written
  // ---------------------------------------------------------------------

  /** `IncrementarCantidad` with the quantity and the argument as 32-bit
      integers, exactly as the source computes `Cantidad + cantidadAdicional`. */
  function IncrementarCantidadInt32(d: DetalleVenta, k: int): (r: Outcome<DetalleVenta, DetalleError>)
    requires -0x8000_0000 <= d.cantidad < 0x8000_0000 && -0x8000_0000 <= k < 0x8000_0000
    ensures d.cantidad + k < 0x8000_0000 ==> r == IncrementarCantidad(d, k)
  {
    if k <= 0 then Fail(CantidadNoPositiva)
    else
      var nueva := Text.SumaInt32(d.cantidad, k);
      if nueva > CantidadMaxima then Fail(CantidadExcedeMaximo)
      else Ok(d.(cantidad := nueva))
  }

  /** The overflow the 9999 guard lets through: adding `int.MaxValue` to a
      line of one unit wraps to `int.MinValue`, which passes the guard and
      leaves the line with a negative quantity. */
  lemma IncrementoDesbordado(d: DetalleVenta)
    requires d.cantidad == 1
    ensures IncrementarCantidadInt32(d, 0x7FFF_FFFF) == Ok(d.(cantidad := -0x8000_0000))
    ensures !CantidadValida(IncrementarCantidadInt32(d, 0x7FFF_FFFF).value.cantidad)
    ensures IncrementarCantidad(d, 0x7FFF_FFFF) == Fail(CantidadExcedeMaximo)
  {
  }
}
