/** `ValidadorInventario`: stateless checks over stock records and sale
    lines. A null argument is `None`; a sequence stands for an enumerable. */
module ValidadorInventario {
  import opened Outcomes
  import opened Inventarios
  import DV = DetallesVenta

  /** A line the stock check rejects, in the order the lines are given. */
  datatype Faltante =
    | SinRegistro(nombre: string)
    | Solicitado(nombre: string, cantidad: int, disponible: int)

  datatype ErrorValidacion =
    | SinProductos
    | SinInventarios
    | StockInsuficienteEn(faltantes: seq<Faltante>)
    | InventarioNoEncontrado
    | CantidadRequeridaNoPositiva
    | DisponibleInsuficiente(disponible: int, requerido: int)
    | ReservasExcedenStock
    | DisponibleNegativo
    | CantidadMenorQueMinimo(minimo: int)
    | CantidadMayorQueMaximo(maximo: int)

  // ---------------------------------------------------------------------
  // Stock for a sale
  // ---------------------------------------------------------------------

  /** Position of the first record for `productoId`, or -1 (`FirstOrDefault`). */
  function IndiceDe(invs: seq<Inventario>, productoId: Guid): (k: int)
    ensures -1 <= k < |invs|
    ensures k == -1 <==> forall i | 0 <= i < |invs| :: invs[i].productoId != productoId
    ensures k >= 0 ==> invs[k].productoId == productoId
    ensures k >= 0 ==> forall j | 0 <= j < k :: invs[j].productoId != productoId
    decreases |invs|
  {
    if |invs| == 0 then -1
    else if invs[0].productoId == productoId then 0
    else
      var k := IndiceDe(invs[1..], productoId);
      if k == -1 then -1 else k + 1
  }

  /** The line's verdict: no record for its product, a record with too
      little available stock, or nothing to report. */
  function FaltanteDe(d: DV.DetalleVenta, invs: seq<Inventario>): Option<Faltante> {
    var k := IndiceDe(invs, d.productoId);
    if k == -1 then Some(SinRegistro(d.nombreProducto))
    else if StockDisponible(invs[k]) < d.cantidad then
      Some(Solicitado(d.nombreProducto, d.cantidad, StockDisponible(invs[k])))
    else None
  }

  /** The line is covered: the first record for its product has enough
      available stock. */
  predicate Cubierta(d: DV.DetalleVenta, invs: seq<Inventario>) {
    exists i | 0 <= i < |invs| :: invs[i].productoId == d.productoId
      && (forall j | 0 <= j < i :: invs[j].productoId != d.productoId)
      && StockDisponible(invs[i]) >= d.cantidad
  }

  lemma FaltanteSiNoCubierta(d: DV.DetalleVenta, invs: seq<Inventario>)
    ensures FaltanteDe(d, invs).None? <==> Cubierta(d, invs)
  {
    var k := IndiceDe(invs, d.productoId);
    if Cubierta(d, invs) {
      var i :| 0 <= i < |invs| && invs[i].productoId == d.productoId
        && (forall j | 0 <= j < i :: invs[j].productoId != d.productoId)
        && StockDisponible(invs[i]) >= d.cantidad;
      assert k == i;
    }
  }

  /** The rejected lines, in order. */
  function Faltantes(ds: seq<DV.DetalleVenta>, invs: seq<Inventario>): seq<Faltante>
    decreases |ds|
  {
    if |ds| == 0 then []
    else
      var f := FaltanteDe(ds[|ds| - 1], invs);
      Faltantes(ds[..|ds| - 1], invs) + (if f.Some? then [f.value] else [])
  }

  /** No line is rejected exactly when every line is covered. */
  lemma {:induction false} FaltantesVacios(ds: seq<DV.DetalleVenta>, invs: seq<Inventario>)
    ensures Faltantes(ds, invs) == [] <==> forall h | 0 <= h < |ds| :: Cubierta(ds[h], invs)
    decreases |ds|
  {
    if |ds| > 0 {
      var previas := ds[..|ds| - 1];
      FaltantesVacios(previas, invs);
      FaltanteSiNoCubierta(ds[|ds| - 1], invs);
      assert forall h | 0 <= h < |previas| :: previas[h] == ds[h];
    }
  }

  /** `ValidarStockParaVenta`: every line must find its product's record
      with enough available stock; otherwise all the failing lines are
      reported together. */
  method ValidarStockParaVenta(detalles: Option<seq<DV.DetalleVenta>>, inventarios: Option<seq<Inventario>>)
    returns (r: Result<(), ErrorValidacion>)
    ensures detalles.None? || |detalles.value| == 0 ==> r == Failure(SinProductos)
    ensures detalles.Some? && |detalles.value| > 0 && inventarios.None? ==> r == Failure(SinInventarios)
    ensures r.Success? <==>
      && detalles.Some? && |detalles.value| > 0 && inventarios.Some?
      && forall i | 0 <= i < |detalles.value| :: Cubierta(detalles.value[i], inventarios.value)
    ensures r.Failure? && r.error.StockInsuficienteEn? ==>
      detalles.Some? && inventarios.Some? && r.error.faltantes == Faltantes(detalles.value, inventarios.value)
      && |r.error.faltantes| > 0
  {
    if detalles.None? || |detalles.value| == 0 {
      return Failure(SinProductos);
    }
    if inventarios.None? {
      return Failure(SinInventarios);
    }
    var ds, invs := detalles.value, inventarios.value;
    var faltantes: seq<Faltante> := [];
    var i := 0;
    while i < |ds|
      invariant 0 <= i <= |ds|
      invariant faltantes == Faltantes(ds[..i], invs)
    {
      var f := FaltanteDe(ds[i], invs);
      assert ds[..i + 1][..i] == ds[..i];
      faltantes := faltantes + (if f.Some? then [f.value] else []);
      i := i + 1;
    }
    assert ds[..i] == ds;
    FaltantesVacios(ds, invs);
    if |faltantes| > 0 {
      return Failure(StockInsuficienteEn(faltantes));
    }
    return Success(());
  }

  // ---------------------------------------------------------------------
  // Single records
  // ---------------------------------------------------------------------

  /** `ValidarStockDisponible`. */
  function ValidarStockDisponible(inventario: Option<Inventario>, cantidadRequerida: int)
    : (r: Result<(), ErrorValidacion>)
    ensures r.Success? <==>
      inventario.Some? && cantidadRequerida > 0 && StockDisponible(inventario.value) >= cantidadRequerida
    ensures inventario.None? ==> r == Failure(InventarioNoEncontrado)
    ensures r.Failure? && r.error.DisponibleInsuficiente? ==>
      r.error == DisponibleInsuficiente(StockDisponible(inventario.value), cantidadRequerida)
  {
    if inventario.None? then Failure(InventarioNoEncontrado)
    else if cantidadRequerida <= 0 then Failure(CantidadRequeridaNoPositiva)
    else if StockDisponible(inventario.value) < cantidadRequerida then
      Failure(DisponibleInsuficiente(StockDisponible(inventario.value), cantidadRequerida))
    else Success(())
  }

  /** A positive quantity passes exactly when reserving it would. */
  lemma DisponibleComoReserva(inv: Inventario, cantidad: int)
    requires Valido(inv)
    ensures ValidarStockDisponible(Some(inv), cantidad).Success? <==> ReservarStock(inv, cantidad).Ok?
  {
  }

  /** `RequiereReabastecimiento`. */
  function RequiereReabastecimiento(inventario: Option<Inventario>): (r: bool)
    ensures r <==> inventario.Some? && inventario.value.stockFisico <= inventario.value.stockMinimo
  {
    inventario.Some? && StockBajo(inventario.value)
  }

  /** `CalcularCantidadReabastecimiento`: enough to fill up to the maximum
      when stock is low, and nothing otherwise. */
  function CalcularCantidadReabastecimiento(inventario: Option<Inventario>): (r: int)
    ensures !RequiereReabastecimiento(inventario) ==> r == 0
    ensures RequiereReabastecimiento(inventario) ==> inventario.value.stockFisico + r == inventario.value.stockMaximo
  {
    if inventario.None? then 0
    else if !StockBajo(inventario.value) then 0
    else inventario.value.stockMaximo - inventario.value.stockFisico
  }

  /** On a valid record the restock quantity is positive exactly when
      stock is low, and receiving it fills the record to its maximum. */
  lemma ReabastecerLlenaHastaMaximo(inv: Inventario)
    requires Valido(inv)
    ensures CalcularCantidadReabastecimiento(Some(inv)) > 0 <==> StockBajo(inv)
    ensures StockBajo(inv) ==>
      var r := IncrementarStock(inv, CalcularCantidadReabastecimiento(Some(inv)));
      r.Ok? && r.value.stockFisico == inv.stockMaximo && Valido(r.value)
  {
  }

  /** `ValidarConsistenciaInventario`; the second check can never fire
      once the first has passed. */
  function ValidarConsistenciaInventario(inventario: Option<Inventario>): (r: Result<(), ErrorValidacion>)
    ensures inventario.None? ==> r == Failure(InventarioNoEncontrado)
    ensures r.Success? <==> inventario.Some? && inventario.value.cantidadReservada <= inventario.value.stockFisico
    ensures r != Failure(DisponibleNegativo)
  {
    if inventario.None? then Failure(InventarioNoEncontrado)
    else if inventario.value.cantidadReservada > inventario.value.stockFisico then Failure(ReservasExcedenStock)
    else if StockDisponible(inventario.value) < 0 then Failure(DisponibleNegativo)
    else Success(())
  }

  /** Every record satisfying the stock invariant passes. */
  lemma ConsistenciaDeValido(inv: Inventario)
    requires Valido(inv)
    ensures ValidarConsistenciaInventario(Some(inv)).Success?
  {
  }

  /** `ObtenerProductosStockCritico`: the records with low stock, in order. */
  function ObtenerProductosStockCritico(inventarios: Option<seq<Inventario>>): (r: seq<Inventario>)
    ensures inventarios.None? ==> r == []
    ensures inventarios.Some? ==> |r| <= |inventarios.value|
    ensures forall x | x in r :: StockBajo(x) && inventarios.Some? && x in inventarios.value
    ensures inventarios.Some? ==> forall i | 0 <= i < |inventarios.value| ::
      StockBajo(inventarios.value[i]) ==> inventarios.value[i] in r
    ensures inventarios.Some? ==>
      forall x :: multiset(r)[x] == if StockBajo(x) then multiset(inventarios.value)[x] else 0
  {
    if inventarios.None? then [] else Criticos(inventarios.value)
  }

  /** The order-preserving filter (`Where`) on low stock. */
  function Criticos(invs: seq<Inventario>): (r: seq<Inventario>)
    ensures |r| <= |invs|
    ensures forall x | x in r :: StockBajo(x) && x in invs
    ensures forall i | 0 <= i < |invs| :: StockBajo(invs[i]) ==> invs[i] in r
    ensures forall x :: multiset(r)[x] == if StockBajo(x) then multiset(invs)[x] else 0
    decreases |invs|
  {
    if |invs| == 0 then []
    else
      var resto := Criticos(invs[1..]);
      assert forall i | 1 <= i < |invs| :: invs[i] == invs[1..][i - 1];
      assert invs == [invs[0]] + invs[1..];
      if StockBajo(invs[0]) then [invs[0]] + resto else resto
  }

  /** The filter keeps the records' order: filtering a concatenation is
      concatenating the filtered parts, so the critical records of a list
      appear in the order of the list. */
  lemma {:induction false} CriticosConcatena(a: seq<Inventario>, b: seq<Inventario>)
    ensures Criticos(a + b) == Criticos(a) + Criticos(b)
    decreases |a|
  {
    if |a| == 0 {
      assert a + b == b;
    } else {
      assert (a + b)[1..] == a[1..] + b;
      CriticosConcatena(a[1..], b);
    }
  }

  /** `ValidarCantidad`. */
  function ValidarCantidad(cantidad: int, minimo: int, maximo: int): (r: Result<(), ErrorValidacion>)
    ensures r.Success? <==> minimo <= cantidad <= maximo
    ensures cantidad < minimo ==> r == Failure(CantidadMenorQueMinimo(minimo))
    ensures minimo <= cantidad && cantidad > maximo ==> r == Failure(CantidadMayorQueMaximo(maximo))
  {
    if cantidad < minimo then Failure(CantidadMenorQueMinimo(minimo))
    else if cantidad > maximo then Failure(CantidadMayorQueMaximo(maximo))
    else Success(())
  }

  /** With its default bounds the check accepts exactly the quantities a
      sale line may hold. */
  lemma CantidadPorDefecto(cantidad: int)
    ensures ValidarCantidad(cantidad, 1, 9999).Success? <==> DV.CantidadValida(cantidad)
  {
  }
}
