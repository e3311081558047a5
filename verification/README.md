# POSSystem domain core in Dafny

This project models the domain layer of POSSystem, a point-of-sale system for a
small Mexican shop, together with the two infrastructure routines that the
domain depends on. The modelled parts are:

- the sale (`Venta`), its lines (`DetalleVenta`) and its payments (`Pago`);
- the stock record (`Inventario`), its holds (`ReservaInventario`) and its
  audit entries (`MovimientoInventario`);
- the cash drawer (`Caja`) and its ledger (`MovimientoCaja`);
- the product catalogue entry (`Producto`);
- the value objects `Dinero`, `Folio` and `CodigoBarras`, and the `Result`
  type;
- the stateless services `CalculadoraImpuestos` and `ValidadorInventario`;
- the daily folio numbering of `FolioRepository`;
- the two column helpers of `TicketService`.

Every entity is an immutable datatype. Every mutator is a pure function that
returns one of three outcomes:

- `Ok(next)`: the operation succeeded and `next` is the new state;
- `Fail(e)`: the source returned `Result.Failure`, and the state is unchanged;
- `InvariantViolated`: the source's `ValidarInvariantes` would throw
  `InvarianteVioladaException`.

Factories return `Result<T, E>`. Error messages become error tags. `decimal`
becomes `real`. `Guid` becomes `nat`, with `0` standing for `Guid.Empty`. The
clock (`DateTime.Now`/`UtcNow`) becomes a `now` parameter measured in ticks.
A `null` reference becomes `None`.

`Math.Round` is modelled in module `Redondeo`, with two rules:
`MidpointRounding.AwayFromZero` for the tax calculator, and the default
banker's rounding for `Dinero`. Module `Text` models the .NET string
primitives the domain calls: `IsNullOrWhiteSpace`, `Trim`, `Split`,
`int.TryParse`, `ToString("D4")` and ordinal comparison. A C# string is a
sequence of UTF-16 code units, so every `Length` check is modelled on
`Text.Utf16Length`, which counts a character outside the Basic Multilingual
Plane as two units.

Module `Cajas` models the cash drawer with the balance rule as written; its
closing concept is simplified (see "## Left out"). Module
`CajasCorregidas` is the same drawer with two corrections to its balance rule,
described under "## Findings".

## Model

| member | source | states |
|---|---|---|
| Ventas.SumaCantidadesReal | POSSystem.Domain/Entities/Venta.cs:93 | The integer item count equals the real-valued sum of the line quantities, so `CantidadProductos` is the plain quantity total. |
| Ventas.Importes | POSSystem.Domain/Entities/Venta.cs:68-78 | A sale's total is the sum of its lines' totals. When every line is valid, subtotal, tax and total are non-negative and ordered subtotal ≤ total. |
| Ventas.CantidadesAlMenosLineas | POSSystem.Domain/Entities/Venta.cs:93 | With every quantity positive, the item count is at least the number of lines. |
| Ventas.Verificado | POSSystem.Domain/Entities/Venta.cs:344-365 | The invariant check passes (and leaves the sale alone) exactly when none of its five rules is broken; otherwise it throws; it never returns a plain failure. |
| Ventas.IndiceDe | POSSystem.Domain/Entities/Venta.cs:150 | Finds the first line for a product, and finds none exactly when no line has that product. |
| Ventas.Crear | POSSystem.Domain/Entities/Venta.cs:109-123 | Succeeds exactly when a folio is given, the user is not empty and the rate lies in [0, 1]. Each missing input gives its own error. A new sale is `Nueva`, has no lines or payments, totals zero and satisfies the reachable-state invariant. |
| Ventas.Bloqueo | POSSystem.Domain/Entities/Venta.cs:136-140 | A sale accepts line changes exactly while it is `Nueva` or `Abierta`. |
| Ventas.AgregarProducto | POSSystem.Domain/Entities/Venta.cs:133-179 | Paid or cancelled sales refuse; a missing product or non-positive quantity is refused. On success the sale is `Abierta`, payments are untouched, and the item count grows by exactly the quantity. An existing line for the product gains the quantity; otherwise one new line is appended. Valid sales stay valid and never trip the invariant check. |
| Ventas.SumarALinea | POSSystem.Domain/Entities/Venta.cs:152-158 | Adding to an existing line changes only that line's quantity, refuses any true sum above 9999, and keeps the sale valid. This is the corrected, non-wrapping merge (see "## Findings"). |
| Ventas.SumarALineaInt32 | POSSystem.Domain/Entities/Venta.cs:152-158 | As written, with the line's wrapping `int` sum: it agrees with the corrected merge whenever the sum does not overflow. |
| Ventas.AgregarDesbordado | POSSystem.Domain/Entities/Venta.cs:152-176 | As written, adding `int.MaxValue` to a line of one unit wraps, passes the line's guard and trips the invariant check; the corrected merge refuses it. |
| Ventas.AgregarLinea | POSSystem.Domain/Entities/Venta.cs:159-167 | Appending a new line keeps the earlier lines, adds one line snapshotting the product, and keeps the sale valid. |
| Ventas.CantidadesTrasActualizar | POSSystem.Domain/Entities/Venta.cs:93 | Replacing one line changes the item count by the difference of the two quantities. |
| Ventas.CantidadesTrasAgregar | POSSystem.Domain/Entities/Venta.cs:93 | Appending a line adds its quantity to the item count. |
| Ventas.CantidadesTrasQuitar | POSSystem.Domain/Entities/Venta.cs:93 | Removing a line subtracts its quantity from the item count. |
| Ventas.QuitarIndice | POSSystem.Domain/Entities/Venta.cs:198-199 | Removing line `i` keeps the other lines in order, keeps them valid and keeps products distinct. |
| Ventas.DistintosTrasActualizar | POSSystem.Domain/Entities/Venta.cs:152-158 | Updating a line without changing its product keeps products distinct. |
| Ventas.DistintosTrasAgregar | POSSystem.Domain/Entities/Venta.cs:149-167 | Appending a line for a product not yet present keeps products distinct. |
| Ventas.QuitarProducto | POSSystem.Domain/Entities/Venta.cs:184-208 | On an editable sale, removal succeeds exactly when the product has a line; that line is removed and nothing else is. A sale left with no lines goes back to `Nueva`. Valid sales stay valid. |
| Ventas.ModificarCantidadProducto | POSSystem.Domain/Entities/Venta.cs:213-235 | Refused on locked sales or absent products. Otherwise the result is that of setting the line's quantity: only that line changes, and valid sales stay valid. |
| Ventas.RegistrarPago | POSSystem.Domain/Entities/Venta.cs:246-277 | Only an `Abierta` sale with lines accepts payment, and only for at least its total. The sale becomes `Pagada`, one payment is appended, and the amount paid grows by the payment. From a valid sale, the paid amount then covers the total. |
| Ventas.Cancelar | POSSystem.Domain/Entities/Venta.cs:287-307 | Succeeds exactly on a `Nueva` or `Abierta` sale with a non-blank reason. Only the state, the trimmed reason and the cancellation time change. |
| Ventas.Reversar | POSSystem.Domain/Entities/Venta.cs:314-334 | Succeeds exactly on a `Pagada` sale with a non-blank reason. The sale becomes `Cancelada` with its lines and payments kept, and it passes the invariant check. |
| Ventas.EjecutarPreservaValida | POSSystem.Domain/Entities/Venta.cs:133-334 | Any sequence of operations on a valid sale, using catalogue products with valid prices, never trips the invariant check and ends in a valid sale. |
| Ventas.CanceladaTerminal | POSSystem.Domain/Entities/Venta.cs:136-307 | A cancelled sale refuses every operation. |
| Ventas.PagadaSoloReversa | POSSystem.Domain/Entities/Venta.cs:314-334 | A paid sale refuses every operation except reversal. |
| Ventas.CancelarDesdeNueva | POSSystem.Domain/Entities/Venta.cs:287-307 | Cancelling a brand-new sale succeeds and leaves a `Cancelada` sale with no lines, which the invariant rule at line 351 would reject if it ran. |
| Ventas.EscenarioVentaEfectivo | POSSystem.Domain/Entities/Venta.cs:133-277 | Two units at 10.00 with 16% VAT give 20.00 + 3.20 = 23.20. A cash payment of 25.00 then pays the sale with 1.80 change. |
| DetallesVenta.Importes | POSSystem.Domain/Entities/DetalleVenta.cs:61-71 | A line's total is its subtotal times (1 + rate) when taxed and the subtotal otherwise. A valid line has 0 ≤ tax ≤ subtotal ≤ total. |
| DetallesVenta.Crear | POSSystem.Domain/Entities/DetalleVenta.cs:98-126 | Succeeds exactly on a sale id, an active product, a quantity in 1..9999 and a rate in [0, 1]. The line snapshots the product's name, code, price and tax flag. With valid product prices the line is valid. |
| DetallesVenta.IncrementarCantidad | POSSystem.Domain/Entities/DetalleVenta.cs:131-145 | Succeeds exactly when `k > 0` and the new quantity stays within 9999. Only the quantity changes, by `k`. This is the corrected form of the overflow finding. |
| DetallesVenta.DecrementarCantidad | POSSystem.Domain/Entities/DetalleVenta.cs:150-164 | Succeeds exactly when `k > 0` and the quantity stays positive. Only the quantity changes, by `-k`. |
| DetallesVenta.EstablecerCantidad | POSSystem.Domain/Entities/DetalleVenta.cs:169-181 | Succeeds exactly on quantities 1..9999, with a separate error for each side. Only the quantity changes. |
| DetallesVenta.IncrementarDecrementar | POSSystem.Domain/Entities/DetalleVenta.cs:131-164 | Increment and decrement by the same amount undo each other in both orders. |
| Text.SumaInt32 | POSSystem.Domain/Entities/DetalleVenta.cs:136 | C#'s unchecked `int` addition: the result is in the Int32 range, agrees with the true sum modulo 2^32, and equals it when it fits. |
| DetallesVenta.IncrementarCantidadInt32 | POSSystem.Domain/Entities/DetalleVenta.cs:131-145 | As written, with a wrapping sum: it agrees with the corrected operation whenever the sum does not overflow. |
| DetallesVenta.IncrementoDesbordado | POSSystem.Domain/Entities/DetalleVenta.cs:136-141 | As written, adding 2147483647 to a quantity of 1 is accepted and stores −2147483648. The corrected operation refuses it. |
| Pagos.Crear | POSSystem.Domain/Entities/Pago.cs:68-114 | Succeeds exactly when the sale id is set, the amount and total are positive, the amount covers the total, non-cash payments are exact, and debit, credit and transfer payments carry a reference. Cash change is amount − total; other kinds have none. |
| Pagos.MixtoSinReferencia | POSSystem.Domain/Entities/Pago.cs:89-109 | A mixed payment needs no reference while a credit card payment does. A card payment over the total is refused, and cash over the total yields change. |
| Inventarios.DerivadosDefinicion | POSSystem.Domain/Entities/Inventario.cs:52-57 | Available stock plus the reserved quantity is the physical stock. Stock is low at or below the minimum. A valid record has 0 ≤ available ≤ physical. |
| Inventarios.Verificado | POSSystem.Domain/Entities/Inventario.cs:288-307 | The invariant check passes exactly when 0 ≤ reserved ≤ physical; otherwise it throws. |
| Inventarios.Crear | POSSystem.Domain/Entities/Inventario.cs:82-106 | Succeeds exactly on a product id and stocks with 0 ≤ min < max and 0 ≤ initial ≤ max. The record starts with nothing reserved and is valid. |
| Inventarios.ReservarStock | POSSystem.Domain/Entities/Inventario.cs:116-135 | Reserves a positive quantity exactly when it is available. Only the reserved quantity grows. Validity is kept and the invariant check never throws. |
| Inventarios.LiberarReserva | POSSystem.Domain/Entities/Inventario.cs:140-157 | Releases a positive quantity up to what is reserved. Only the reserved quantity shrinks. |
| Inventarios.ConfirmarReserva | POSSystem.Domain/Entities/Inventario.cs:163-191 | Consumes a reserved quantity: physical and reserved stock both drop by it, so available stock is unchanged. On a valid record it succeeds exactly for 0 < q ≤ reserved. |
| Inventarios.IncrementarStock | POSSystem.Domain/Entities/Inventario.cs:200-216 | Succeeds exactly for a positive quantity whose true sum with the stock stays within the maximum. Only physical stock grows. This is the corrected, non-wrapping operation (see "## Findings"). |
| Inventarios.IncrementarStockInt32 | POSSystem.Domain/Entities/Inventario.cs:200-216 | As written, with a wrapping `int` sum: it agrees with the corrected operation whenever the sum does not overflow, and otherwise changes only the stock, by the sum modulo 2^32. |
| Inventarios.IncrementoStockDesbordado | POSSystem.Domain/Entities/Inventario.cs:205-211 | As written, adding `int.MaxValue` to a positive stock wraps negative, passes the maximum check and succeeds with an invalid record; the corrected operation refuses it. |
| Inventarios.DecrementarStock | POSSystem.Domain/Entities/Inventario.cs:221-242 | Refuses non-positive quantities, a negative result, and going below the reserved quantity. Only physical stock drops. |
| Inventarios.AjustarStock | POSSystem.Domain/Entities/Inventario.cs:247-264 | Sets physical stock to any value ≥ reserved when a reason is given. Nothing else changes. |
| Inventarios.ActualizarLimites | POSSystem.Domain/Entities/Inventario.cs:269-282 | Accepts limits exactly when 0 ≤ min < max, and changes nothing else. |
| Inventarios.EjecutarPreservaValido | POSSystem.Domain/Entities/Inventario.cs:116-307 | Any sequence of stock operations from a valid record never trips the invariant check and ends valid. |
| Inventarios.SinSobreventa | POSSystem.Domain/Entities/Inventario.cs:116-135 | Whatever quantities are requested, the successful reservations never total more than the stock that was available. Physical stock is untouched. |
| Inventarios.SinSobreventaDesdeCrear | POSSystem.Domain/Entities/Inventario.cs:82-135 | From a freshly created record, successful reservations never exceed the initial stock. |
| Inventarios.EscenarioReservaCompleta | POSSystem.Domain/Entities/Inventario.cs:116-135 | Reserving all ten units leaves nothing available, and an eleventh unit is refused. |
| Reservas.Crear | POSSystem.Domain/Entities/ReservaInventario.cs:81-103 | Succeeds exactly on product and sale ids, a positive quantity and a window of 1..60 minutes. The hold starts `Activa` and expires strictly after creation, at creation time plus the window. |
| Reservas.Confirmar | POSSystem.Domain/Entities/ReservaInventario.cs:117-130 | Confirms exactly an active hold that has not expired. Only the state and the confirmation time change. |
| Reservas.Cancelar | POSSystem.Domain/Entities/ReservaInventario.cs:136-150 | Cancels exactly an active hold given a non-blank reason, which is stored trimmed. |
| Reservas.Expirar | POSSystem.Domain/Entities/ReservaInventario.cs:156-170 | Expires exactly an active hold whose expiry has passed. Before that it reports it has not expired yet. |
| Reservas.ExtenderExpiracion | POSSystem.Domain/Entities/ReservaInventario.cs:175-187 | Extends exactly an active hold by 1..60 minutes. The expiry moves strictly later. |
| Reservas.EstadosTerminales | POSSystem.Domain/Entities/ReservaInventario.cs:117-187 | Confirmed, cancelled and expired holds refuse every operation. Only an extension keeps a hold active. |
| Reservas.ConfirmarOExpirar | POSSystem.Domain/Entities/ReservaInventario.cs:108-170 | At any instant, an active hold can be confirmed or expired but not both. Expiring is possible exactly when `EstaExpirada` holds. |
| Reservas.EscenarioExpiracion | POSSystem.Domain/Entities/ReservaInventario.cs:81-170 | A hold can be confirmed up to and including its expiry instant and expired from the next tick on. |
| MovimientosInventario.Crear | POSSystem.Domain/Entities/MovimientoInventario.cs:93-155 | Succeeds exactly on valid ids, a non-zero quantity equal to after − before, non-negative stocks, a non-blank concept of at most 500 UTF-16 code units, and no negative inflow. Outflows are stored negative, inflows as given. |
| MovimientosInventario.CoherenteSalvoSignoForzado | POSSystem.Domain/Entities/MovimientoInventario.cs:121-133 | A stored entry's quantity equals after − before exactly unless it is an outflow passed as a positive quantity, whose sign the factory flips after the check. |
| MovimientosInventario.VentaPositivaIncoherente | POSSystem.Domain/Entities/MovimientoInventario.cs:121-133 | A sale entry of 3 with stock going 10 → 13 is accepted and stored as −3, contradicting its own stocks. |
| MovimientosInventario.ConfirmarYAuditar | POSSystem.Application/UseCases/Ventas/FinalizarVentaUseCase.cs:107-115 | Confirming a reservation and then auditing it as the sale's finalisation does always yields a coherent entry. The entry's before and after match the record, and its quantity is the negated amount. |
| Productos.ValidarNombre | POSSystem.Domain/Entities/Producto.cs:95-99 | A name passes exactly when it is non-blank and at most 200 UTF-16 code units long. The trimmed name is then a valid stored name. |
| Productos.NombreEnUnidades | POSSystem.Domain/Entities/Producto.cs:98 | The limit counts code units: 101 characters outside the BMP are refused as too long, 100 pass. |
| Productos.Crear | POSSystem.Domain/Entities/Producto.cs:82-120 | Succeeds exactly with a code, a valid name, a positive sale price and a cost in [0, price]. The product is active, valid and stores trimmed text. |
| Productos.ActualizarPrecioVenta | POSSystem.Domain/Entities/Producto.cs:125-137 | Accepts a positive price not below cost, and changes only the price. |
| Productos.ActualizarPrecioCosto | POSSystem.Domain/Entities/Producto.cs:142-154 | Accepts a cost in [0, sale price], and changes only the cost. |
| Productos.Desactivar | POSSystem.Domain/Entities/Producto.cs:159-163 | Clears the active flag and changes nothing else. |
| Productos.Activar | POSSystem.Domain/Entities/Producto.cs:168-172 | Sets the active flag and changes nothing else. |
| Productos.Actualizar | POSSystem.Domain/Entities/Producto.cs:177-191 | Succeeds exactly when the name passes. It replaces name, description and category with trimmed text and never touches prices, code or the active flag. |
| Productos.EjecutarPreservaValido | POSSystem.Domain/Entities/Producto.cs:125-191 | Any sequence of product operations keeps a valid product valid. |
| Productos.SinOperacionesDePrecioNoCambianPrecios | POSSystem.Domain/Entities/Producto.cs:159-191 | A sequence with no price operation leaves both prices unchanged. |
| Cajas.TotalesNoNegativos | POSSystem.Domain/Entities/Caja.cs:88-102 | Cancellation and withdrawal totals are never negative. Sales total is non-negative when every entry carries its kind's sign. |
| Cajas.Verificado | POSSystem.Domain/Entities/Caja.cs:359-373 | The invariant check passes exactly when the balance is within a cent of the computed balance, is not negative, and a closed drawer has a closing date. |
| Cajas.Crear | POSSystem.Domain/Entities/Caja.cs:125-139 | Succeeds exactly on a positive number and a non-blank name of at most 100 UTF-16 code units. A new drawer is closed with a zero balance and an empty ledger. |
| Cajas.NombreEnUnidades | POSSystem.Domain/Entities/Caja.cs:133 | The limit counts code units: a name of 51 characters outside the BMP is refused, one of 50 is accepted. |
| Cajas.ConceptoAjuste | POSSystem.Domain/Entities/Caja.cs:224 | The adjustment concept is non-empty, at most half the concept limit in characters and starts with a visible character, so the ledger factory accepts it. It names a surplus exactly when the count exceeds the balance. |
| Cajas.ConceptoAceptado | POSSystem.Domain/Entities/MovimientoCaja.cs:90-94 | A concept of at most 250 characters that starts with a visible character is non-blank and within the 500-unit limit. |
| Cajas.EntradaFija | POSSystem.Domain/Entities/Caja.cs:174-182 | The entry built for an opening or closing from one of the fixed short concepts has the requested kind and amount, carries its sign, and belongs to the drawer and user at the given time. |
| Cajas.Abrir | POSSystem.Domain/Entities/Caja.cs:148-187 | Opens exactly a closed drawer with a non-negative float and a user. The new shift has balance = float, no closing data, and a ledger of one opening entry whose amount is the float. |
| Cajas.AperturaDuplicaFondo | POSSystem.Domain/Entities/Caja.cs:109 | As written, right after opening, the computed balance is twice the float. |
| Cajas.EntradasDeCierre | POSSystem.Domain/Entities/Caja.cs:210-234 | A closing appends a zero-amount closing entry and, only when there is a difference, an adjustment for it. The appended amounts sum to the difference. |
| Cajas.EntradaCierre | POSSystem.Domain/Entities/Caja.cs:211-219 | The closing entry is a signed `Cierre` entry of amount zero. |
| Cajas.EntradaAjuste | POSSystem.Domain/Entities/Caja.cs:222-234 | The adjustment entry is a signed `Ajuste` entry for the difference. |
| Cajas.CerrarCon | POSSystem.Domain/Entities/Caja.cs:192-239 | Closes exactly an open drawer given a non-negative count and a user. It records the difference against the computed balance, and the appended entries add that difference to the ledger. |
| Cajas.Cerrar | POSSystem.Domain/Entities/Caja.cs:192-239 | After closing, the computed balance equals the declared count. The drawer is closed with its closing date set. |
| Cajas.CierreConservaSignos | POSSystem.Domain/Entities/Caja.cs:210-234 | Closing keeps every ledger entry's sign consistent with its kind. |
| Cajas.RegistrarMovimiento | POSSystem.Domain/Entities/Caja.cs:249-293 | Refuses closed drawers and opening/closing kinds. It relays factory failures and refuses a result below zero. Otherwise it appends the stored entry and moves the balance by the amount passed in, and the outcome is decided by the invariant check: recorded exactly when the new drawer is consistent, the invariant exception otherwise. Nothing else changes. |
| Cajas.MovimientoConservaSignos | POSSystem.Domain/Entities/Caja.cs:249-293 | A recorded movement keeps every ledger entry's sign consistent with its kind. |
| Cajas.RegistrarVenta | POSSystem.Domain/Entities/Caja.cs:302-310 | A sale entry raises the balance by a non-negative amount; a negative amount is refused. |
| Cajas.RegistrarCancelacion | POSSystem.Domain/Entities/Caja.cs:315-323 | A cancellation moves the balance by minus the amount passed. |
| Cajas.RegistrarRetiro | POSSystem.Domain/Entities/Caja.cs:328-338 | A withdrawal needs a positive amount, lowers the balance by it, and cannot take more than the balance. |
| Cajas.RegistrarDeposito | POSSystem.Domain/Entities/Caja.cs:343-353 | A deposit needs a positive amount and raises the balance by it. |
| Cajas.AperturaDobleConteo | POSSystem.Domain/Entities/Caja.cs:109 | As written, once a drawer is opened with a float over one cent, no movement that stores the amount it was passed can be recorded. |
| Cajas.CancelacionNegativaDescuadra | POSSystem.Domain/Entities/Caja.cs:278 | As written, a cancellation passed −5.00 on a drawer opened with no float stores −5.00 but raises the balance by 5.00, so the invariant check throws. |
| Cajas.EscenarioCajaComoEscrito | POSSystem.Domain/Entities/Caja.cs:148-310 | As written, opening with 500.00 and then recording a sale of 23.20 fails. |
| CajasCorregidas.Verificado | POSSystem.Domain/Entities/Caja.cs:359-373 | The invariant check over the corrected balance (the ledger sum alone) passes exactly when its three rules hold. |
| CajasCorregidas.CrearCuadra | POSSystem.Domain/Entities/Caja.cs:125-139 | A created drawer is balanced. |
| CajasCorregidas.AbrirCuadra | POSSystem.Domain/Entities/Caja.cs:148-187 | An opened drawer is balanced: its balance equals what its ledger adds up to. |
| CajasCorregidas.Cerrar | POSSystem.Domain/Entities/Caja.cs:192-239 | Closing records the difference against the ledger, after which the ledger adds up to the count. The balance is kept. |
| CajasCorregidas.CierreSinDiferencia | POSSystem.Domain/Entities/Caja.cs:192-239 | On a balanced drawer the closing difference is zero exactly when the count equals the balance. |
| CajasCorregidas.RegistrarMovimiento | POSSystem.Domain/Entities/Caja.cs:249-293 | The same guards as the original, but the balance moves by the stored amount. A balanced drawer stays balanced and never trips the invariant check. |
| CajasCorregidas.MovimientoAceptado | POSSystem.Domain/Entities/Caja.cs:249-293 | On a balanced drawer a movement is recorded exactly when the drawer is open, the kind is not opening or closing, the factory accepts it, and the stored amount keeps the balance non-negative. |
| CajasCorregidas.RegistrarVenta | POSSystem.Domain/Entities/Caja.cs:302-310 | A sale raises the balance by its amount and keeps the drawer balanced. |
| CajasCorregidas.RegistrarCancelacion | POSSystem.Domain/Entities/Caja.cs:315-323 | A cancellation lowers the balance by the amount's absolute value, whatever its sign, and keeps the drawer balanced. |
| CajasCorregidas.RegistrarRetiro | POSSystem.Domain/Entities/Caja.cs:328-338 | A withdrawal lowers the balance by its positive amount, is refused beyond the balance, and keeps the drawer balanced. |
| CajasCorregidas.RegistrarDeposito | POSSystem.Domain/Entities/Caja.cs:343-353 | A deposit raises the balance by its positive amount and keeps the drawer balanced. |
| CajasCorregidas.AplicarCuadra | POSSystem.Domain/Entities/Caja.cs:148-353 | No single drawer operation on a balanced drawer trips the invariant check, and each success is balanced. |
| CajasCorregidas.EjecutarCuadra | POSSystem.Domain/Entities/Caja.cs:148-373 | Any sequence of drawer operations from a balanced drawer never trips the invariant check and ends balanced. |
| CajasCorregidas.VentaAceptada | POSSystem.Domain/Entities/Caja.cs:302-310 | On an open balanced drawer, a non-negative sale with a folio of acceptable length is always recorded. |
| CajasCorregidas.RetiroAceptado | POSSystem.Domain/Entities/Caja.cs:328-338 | On an open balanced drawer, a withdrawal of 0 < amount ≤ balance with a reason is always recorded. |
| CajasCorregidas.EscenarioCaja | POSSystem.Domain/Entities/Caja.cs:148-310 | Float 500.00, sale 23.20 and withdrawal 50.00 leave 473.20. A count of 473.20 at the close records no difference. |
| CajasCorregidas.CancelacionNegativaRechazada | POSSystem.Domain/Entities/Caja.cs:315-323 | The negative cancellation that unbalanced the original is refused, because the stored outflow would go below zero. |
| MovimientosCaja.Crear | POSSystem.Domain/Entities/MovimientoCaja.cs:79-124 | Succeeds exactly on a drawer id, a non-blank concept of at most 500 UTF-16 code units, a user, and no negative inflow. Outflows are stored negative, inflows unchanged. The magnitude is always kept and text is trimmed. |
| MovimientosCaja.CrearNormaliza | POSSystem.Domain/Entities/MovimientoCaja.cs:79-124 | Every entry the factory builds is normalised: trimmed, within limits and signed by kind. |
| MovimientosCaja.CrearDesdeNormalizado | POSSystem.Domain/Entities/MovimientoCaja.cs:79-124 | Rebuilding a normalised entry from its own fields gives it back. |
| CalculadoraImpuestos.CalcularIVA | POSSystem.Domain/DomainServices/CalculadoraImpuestos.cs:31-40 | Succeeds exactly on a non-negative subtotal and a rate in [0, 1]. The tax is a whole number of cents within half a cent of subtotal × rate, and an exact half cent rounds up (away from zero). |
| CalculadoraImpuestos.CalcularTotalConIVA | POSSystem.Domain/DomainServices/CalculadoraImpuestos.cs:48-52 | Fails with the tax's error, or returns subtotal + rounded tax, which is never below the subtotal. |
| CalculadoraImpuestos.DesglosarIVA | POSSystem.Domain/DomainServices/CalculadoraImpuestos.cs:60-75 | Splits a non-negative total into parts that add back to it exactly. The subtotal is a whole number of cents within half a cent of total / (1 + rate), with an exact half cent rounded up. |
| CalculadoraImpuestos.DesglosarTotalConIVA | POSSystem.Domain/DomainServices/CalculadoraImpuestos.cs:48-75 | Round trip: splitting the total computed for a whole-cent subtotal gives back that subtotal and its tax. |
| CalculadoraImpuestos.EnCentavos | POSSystem.Domain/DomainServices/CalculadoraImpuestos.cs:31-40 | In cents, the computed tax is the integer nearest to subtotal × rate. |
| CalculadoraImpuestos.CalcularIVAMultiple | POSSystem.Domain/DomainServices/CalculadoraImpuestos.cs:82-92 | Succeeds exactly when every item's tax can be computed, and then returns the sum of the item taxes. A failure carries the error of the first invalid item. |
| CalculadoraImpuestos.RedondearMonto | POSSystem.Domain/DomainServices/CalculadoraImpuestos.cs:101-107 | Succeeds exactly for a positive multiple, and returns a multiple of it within half a step of the amount. An exact half step goes away from zero: up for a non-negative amount, down for a negative one. |
| CalculadoraImpuestos.RedondeoPorDefecto | POSSystem.Domain/DomainServices/CalculadoraImpuestos.cs:101 | With the default step of 0.05 the call always succeeds and returns a multiple of five cents within 2.5 cents of the amount. |
| CalculadoraImpuestos.AMayusculas | POSSystem.Domain/DomainServices/CalculadoraImpuestos.cs:130 | Upper-casing keeps the length and maps each character on its own. |
| CalculadoraImpuestos.BlancoMayusculas | POSSystem.Domain/DomainServices/CalculadoraImpuestos.cs:130 | Upper-casing neither creates nor removes a blank string. |
| CalculadoraImpuestos.AMayusculasIdempotente | POSSystem.Domain/DomainServices/CalculadoraImpuestos.cs:130 | Upper-casing twice is upper-casing once. |
| CalculadoraImpuestos.DebeAplicarIVAEstandar | POSSystem.Domain/DomainServices/CalculadoraImpuestos.cs:115-131 | A missing or blank category is taxed. Otherwise the category is exempt exactly when its trimmed upper case is one of the exempt categories. |
| CalculadoraImpuestos.ObtenerTasaIVAPorCategoria | POSSystem.Domain/DomainServices/CalculadoraImpuestos.cs:138-141 | The rate is 16% or 0%, and it is 0% exactly for exempt categories. It is always a valid rate. |
| CalculadoraImpuestos.TasaSinDistinguirMayusculas | POSSystem.Domain/DomainServices/CalculadoraImpuestos.cs:115-141 | The rate does not depend on the category's letter case. |
| CalculadoraImpuestos.IPuntoGravada | POSSystem.Domain/DomainServices/CalculadoraImpuestos.cs:115-141 | A category containing a dotless i, such as "lıbros", keeps it when upper-cased, matches no exempt name and is taxed at 16%. |
| CalculadoraImpuestos.LibrosExentos | POSSystem.Domain/DomainServices/CalculadoraImpuestos.cs:115-141 | "libros" is exempt. |
| CalculadoraImpuestos.RopaGravada | POSSystem.Domain/DomainServices/CalculadoraImpuestos.cs:115-141 | "Ropa" pays the standard rate. |
| Redondeo.RedondearLejosDeCero | POSSystem.Domain/DomainServices/CalculadoraImpuestos.cs:39 | The integer within half a unit, with halves going away from zero. |
| Redondeo.RedondearAlPar | POSSystem.Domain/ValueObjects/Dinero.cs:21 | The integer within half a unit, with halves going to the even neighbour. |
| Redondeo.LejosDeCeroUnico | POSSystem.Domain/DomainServices/CalculadoraImpuestos.cs:39 | Only one integer meets the away-from-zero rule, so the rule is fully specified. |
| Redondeo.AlParUnico | POSSystem.Domain/ValueObjects/Dinero.cs:21 | Only one integer meets the half-to-even rule. |
| Redondeo.CercaDeEntero | POSSystem.Domain/DomainServices/CalculadoraImpuestos.cs:39 | A value strictly within half a unit of an integer rounds to it under both rules. |
| Redondeo.Redondear2 | POSSystem.Domain/DomainServices/CalculadoraImpuestos.cs:39 | Rounds to a whole number of cents within half a cent, and keeps non-negative values non-negative. A half cent goes away from zero: up for non-negative values, down for negative ones. |
| Redondeo.RedondearPar2 | POSSystem.Domain/ValueObjects/Dinero.cs:21 | Banker's rounding to cents: whole cents, within half a cent, non-negative preserved. A value exactly half a cent from the result was rounded to an even number of cents. |
| Redondeo.CentavosFijos | POSSystem.Domain/ValueObjects/Dinero.cs:21 | Both roundings leave whole cents unchanged. |
| Redondeo.CentavosCerrados | POSSystem.Domain/ValueObjects/Dinero.cs:39-52 | Sums and differences of whole cents are whole cents. |
| Redondeo.MitadesDifieren | POSSystem.Domain/ValueObjects/Dinero.cs:21 | 2.345 rounds to 2.35 away from zero but to 2.34 half-to-even, while 2.355 gives 2.36 under both. |
| Dineros.Nuevo | POSSystem.Domain/ValueObjects/Dinero.cs:19-23 | Every instance holds whole cents within half a cent of the amount given, with a half cent going to the even cent (banker's rounding). Whole cents are kept exactly. |
| Dineros.Crear | POSSystem.Domain/ValueObjects/Dinero.cs:25-34 | Succeeds exactly on a non-negative amount and a non-blank currency, and yields non-negative whole cents within half a cent of the amount, with an exact half cent going to the even cent. |
| Dineros.Cero | POSSystem.Domain/ValueObjects/Dinero.cs:36 | Zero in the default currency, MXN. |
| Dineros.Sumar | POSSystem.Domain/ValueObjects/Dinero.cs:39-43 | Defined exactly for equal currencies, and then the sum of the amounts. |
| Dineros.Restar | POSSystem.Domain/ValueObjects/Dinero.cs:45-52 | Defined exactly for equal currencies and a non-negative difference, and then the difference. |
| Dineros.Multiplicar | POSSystem.Domain/ValueObjects/Dinero.cs:54-62 | The product rounded to cents in the same currency: within half a cent, with an exact half cent going to the even cent (banker's rounding). |
| Dineros.RestarDeshaceSumar | POSSystem.Domain/ValueObjects/Dinero.cs:39-52 | Subtracting what was added gives back the original money. |
| Dineros.SumarConmutativa | POSSystem.Domain/ValueObjects/Dinero.cs:39-43 | Addition is commutative, including its currency failure. |
| Dineros.MultiplicarSinControlDeSigno | POSSystem.Domain/ValueObjects/Dinero.cs:59-62 | Multiplying by −1 yields an amount of −5.00, which `Crear` would refuse. |
| Dineros.MayorQue | POSSystem.Domain/ValueObjects/Dinero.cs:71-75 | Defined exactly for equal currencies, and then compares amounts with `>`. |
| Dineros.MenorQue | POSSystem.Domain/ValueObjects/Dinero.cs:77-81 | Defined exactly for equal currencies, and then compares amounts with `<`. |
| Dineros.MayorOIgual | POSSystem.Domain/ValueObjects/Dinero.cs:83-87 | Defined exactly for equal currencies, and then compares amounts with `>=`. |
| Dineros.MenorOIgual | POSSystem.Domain/ValueObjects/Dinero.cs:89-93 | Defined exactly for equal currencies, and then compares amounts with `<=`. |
| Dineros.CompararCon | POSSystem.Domain/ValueObjects/Dinero.cs:106-111 | A null argument sorts first. Other money compares only in the same currency, with a result in −1..1. |
| Dineros.CompararCoherente | POSSystem.Domain/ValueObjects/Dinero.cs:71-111 | `CompareTo` agrees with the four comparison operators and is antisymmetric. |
| Dineros.Iguales | POSSystem.Domain/ValueObjects/Dinero.cs:97-118 | Equality is value equality, with two nulls equal. |
| Dineros.RedondeoIguala | POSSystem.Domain/ValueObjects/Dinero.cs:19-34 | 1.004 and 1.00 MXN create the same money. |
| Folios.FormatoFecha | POSSystem.Domain/ValueObjects/Folio.cs:32 | `yyyyMMdd`: eight digits whose year, month and day fields read back as the date. |
| Folios.Crear | POSSystem.Domain/ValueObjects/Folio.cs:27-37 | Succeeds exactly for 1..9999. The folio is the date, a dash, and four digits that read back as the number. |
| Folios.Desde | POSSystem.Domain/ValueObjects/Folio.cs:42-51 | Accepts exactly a non-blank well-formed string and keeps it as is. A valid one is 13 characters with a single dash at position 8. |
| Folios.PartesEnUnidades | POSSystem.Domain/ValueObjects/Folio.cs:62-66 | Checking the part lengths in characters decides the same as `Length` in UTF-16 units, because parsed parts are BMP-only. |
| Folios.DesdeConNulo | POSSystem.Domain/ValueObjects/Folio.cs:42-66 | Seven digits, a NUL, a dash and four digits are accepted, though the date part is not all digits. |
| Folios.FormatoValidoForma | POSSystem.Domain/ValueObjects/Folio.cs:53-71 | A well-formed folio is 13 characters with one dash, at position 8. |
| Folios.DosPartes | POSSystem.Domain/ValueObjects/Folio.cs:58-60 | A string splitting into exactly two parts on '-' is those parts joined by a dash, and neither part contains one. |
| Folios.FormatoDeDigitos | POSSystem.Domain/ValueObjects/Folio.cs:53-71 | Eight digits, a dash and four digits form a valid folio. |
| Folios.CrearDesde | POSSystem.Domain/ValueObjects/Folio.cs:27-51 | Round trip: a created folio rehydrates through `Desde` to itself. |
| Folios.CrearInyectivo | POSSystem.Domain/ValueObjects/Folio.cs:27-37 | On one day, distinct numbers give distinct folios. |
| Folios.Equals | POSSystem.Domain/ValueObjects/Folio.cs:76-80 | Equal exactly to a non-null folio with the same value. |
| Folios.OperadorIgual | POSSystem.Domain/ValueObjects/Folio.cs:85-91 | `==` is value equality, with two nulls equal. |
| FolioRepositorio.Ultimo | POSSystem.Infrastructure/Persistence/Repositories/FolioRepository.cs:44-48 | The greatest stored folio (in ordinal order) that starts with the day's prefix, or none exactly when no stored folio has it. |
| FolioRepositorio.IncrementoInt32 | POSSystem.Infrastructure/Persistence/Repositories/FolioRepository.cs:60 | `consecutivo + 1` in C#: the successor, except that Int32.MaxValue wraps to Int32.MinValue. |
| FolioRepositorio.PrimerFolioDelDia | POSSystem.Infrastructure/Persistence/Repositories/FolioRepository.cs:50-54 | With no folio for the day, numbering starts at 1. |
| FolioRepositorio.SiguienteDesdeUltimo | POSSystem.Infrastructure/Persistence/Repositories/FolioRepository.cs:56-64 | The next number is the last folio's parsed second part plus one. An unparseable last folio falls back to 1. |
| FolioRepositorio.PartesDeFolioDelDia | POSSystem.Infrastructure/Persistence/Repositories/FolioRepository.cs:57-58 | A well-formed folio of the day splits into date and number, and the number parses. |
| FolioRepositorio.OrdenDeFolios | POSSystem.Infrastructure/Persistence/Repositories/FolioRepository.cs:46 | On one day, ordinal order on folios is numeric order on their numbers. |
| FolioRepositorio.SiguienteTrasFolio | POSSystem.Infrastructure/Persistence/Repositories/FolioRepository.cs:56-60 | When the day's last folio is well formed, the next number is its number plus one, and at most 10000. |
| FolioRepositorio.SiguienteSuperaExistentes | POSSystem.Infrastructure/Persistence/Repositories/FolioRepository.cs:37-66 | When the day's folios are well formed, the next number exceeds every one of them and lies in 1..10000. |
| FolioRepositorio.SiguienteFolioEsNuevo | POSSystem.Infrastructure/Persistence/Repositories/FolioRepository.cs:37-66 | The folio built from the next number is not already stored. |
| FolioRepositorio.DespuesDe9999 | POSSystem.Infrastructure/Persistence/Repositories/FolioRepository.cs:56-60 | After folio 9999 the rule hands out 10000, which `Folio.Crear` refuses. |
| CodigosBarras.Crear | POSSystem.Domain/ValueObjects/CodigoBarras.cs:24-41 | Blank input fails as empty. Otherwise the code is accepted exactly when the trimmed text is all digits of an accepted length, and it stores that trimmed text. |
| CodigosBarras.LongitudEnUnidades | POSSystem.Domain/ValueObjects/CodigoBarras.cs:32-38 | The length check is reached only for all-digit text, where the character count is `Length` in UTF-16 units. |
| CodigosBarras.CrearIdempotente | POSSystem.Domain/ValueObjects/CodigoBarras.cs:24-41 | Creating a code again from a created code's value gives the same result. |
| CodigosBarras.CrearDeValido | POSSystem.Domain/ValueObjects/CodigoBarras.cs:24-59 | A code rebuilds from its own value to itself exactly when it is valid. |
| CodigosBarras.Equals | POSSystem.Domain/ValueObjects/CodigoBarras.cs:63-67 | Equal exactly to a non-null code with the same value. |
| CodigosBarras.OperadorIgual | POSSystem.Domain/ValueObjects/CodigoBarras.cs:72-78 | `==` is value equality, with two nulls equal. |
| ValidadorInventario.IndiceDe | POSSystem.Domain/DomainServices/ValidadorInventario.cs:37 | The first record for a product, or −1 exactly when there is none. |
| ValidadorInventario.FaltanteSiNoCubierta | POSSystem.Domain/DomainServices/ValidadorInventario.cs:37-50 | A line reports nothing exactly when its product's first record has enough available stock. |
| ValidadorInventario.FaltantesVacios | POSSystem.Domain/DomainServices/ValidadorInventario.cs:33-57 | The report is empty exactly when every line is covered. |
| ValidadorInventario.ValidarStockParaVenta | POSSystem.Domain/DomainServices/ValidadorInventario.cs:23-60 | Missing or empty lines and missing records fail first. Otherwise it succeeds exactly when every line is covered, and a failure lists the uncovered lines in order. |
| ValidadorInventario.ValidarStockDisponible | POSSystem.Domain/DomainServices/ValidadorInventario.cs:65-78 | Succeeds exactly for an existing record, a positive quantity and enough available stock. A shortage reports what is available. |
| ValidadorInventario.DisponibleComoReserva | POSSystem.Domain/DomainServices/ValidadorInventario.cs:65-78 | On a valid record the check passes exactly when reserving the quantity would succeed. |
| ValidadorInventario.RequiereReabastecimiento | POSSystem.Domain/DomainServices/ValidadorInventario.cs:83-89 | Restock is needed exactly for an existing record at or below its minimum. |
| ValidadorInventario.CalcularCantidadReabastecimiento | POSSystem.Domain/DomainServices/ValidadorInventario.cs:94-104 | Zero when no restock is needed; otherwise exactly what fills the record to its maximum. |
| ValidadorInventario.ReabastecerLlenaHastaMaximo | POSSystem.Domain/DomainServices/ValidadorInventario.cs:94-104 | On a valid record the quantity is positive exactly when stock is low. Receiving it fills the record to its maximum and keeps it valid. |
| ValidadorInventario.ValidarConsistenciaInventario | POSSystem.Domain/DomainServices/ValidadorInventario.cs:109-125 | Passes exactly for an existing record with reserved ≤ physical. The negative-available error can never be returned. |
| ValidadorInventario.ConsistenciaDeValido | POSSystem.Domain/DomainServices/ValidadorInventario.cs:109-125 | Every record that satisfies the stock invariant passes. |
| ValidadorInventario.ObtenerProductosStockCritico | POSSystem.Domain/DomainServices/ValidadorInventario.cs:130-137 | Returns the low-stock records of the input, each as many times as it occurs there and nothing else. A null input gives none. |
| ValidadorInventario.Criticos | POSSystem.Domain/DomainServices/ValidadorInventario.cs:136 | The filter keeps every low-stock record with its multiplicity, and nothing else. |
| ValidadorInventario.CriticosConcatena | POSSystem.Domain/DomainServices/ValidadorInventario.cs:136 | Filtering a concatenation concatenates the filtered parts, so the records keep the input order, as `Where` does. |
| ValidadorInventario.ValidarCantidad | POSSystem.Domain/DomainServices/ValidadorInventario.cs:142-151 | Passes exactly within [min, max], reporting the bound that was crossed. |
| ValidadorInventario.CantidadPorDefecto | POSSystem.Domain/DomainServices/ValidadorInventario.cs:142-151 | With its default bounds 1..9999 the check accepts exactly the quantities a sale line may hold. |
| TicketLayout.Centrar | POSSystem.Infrastructure/Services/TicketService.cs:209-219 | Works on UTF-16 code units. Pads a short text on the left only, with half the spare width rounded down, so it ends at or one short of the centre of the width. Long text is cut to the width, a null or empty text gives all spaces, and a negative width fails. |
| TicketLayout.AlinearDerecha | POSSystem.Infrastructure/Services/TicketService.cs:221-229 | Works on UTF-16 code units. Label at the left, value flush right, spaces between. The result is never shorter than the width and never drops a unit. |
| TicketLayout.AnchoEnUnidades | POSSystem.Infrastructure/Services/TicketService.cs:209-229 | A character outside the BMP fills two units of the width: a width of one keeps only its high surrogate, and it leaves one space less when aligned. |
| Results.Construct | POSSystem.Domain/Common/Result.cs:19-29 | The constructor accepts exactly a success with an empty error or a failure with a non-empty one. |
| Results.ConstructedIsWellFormed | POSSystem.Domain/Common/Result.cs:16-29 | Every constructed result is well formed, and `IsFailure` is the negation of `IsSuccess`. |
| Results.Success | POSSystem.Domain/Common/Result.cs:31 | A success with an empty error. |
| Results.Failure | POSSystem.Domain/Common/Result.cs:32 | A failure carrying its error, and refused for an empty error. |
| Results.SuccessOf | POSSystem.Domain/Common/Result.cs:34 | A success carrying its value. |
| Results.FailureOf | POSSystem.Domain/Common/Result.cs:35 | A failure with no value, and refused for an empty error. |
| Text.Trim | POSSystem.Domain/Entities/Producto.cs:188 | `string.Trim`: no whitespace at either end, empty exactly for blank input. |
| Text.Split | POSSystem.Domain/ValueObjects/Folio.cs:58 | `string.Split(char)`: the parts contain no separator and join back to the input. |
| Text.TryParseInt32 | POSSystem.Infrastructure/Persistence/Repositories/FolioRepository.cs:58 | `int.TryParse`: a parsed value lies in the Int32 range and the text contains a digit. Trailing NULs are ignored. |
| Text.NulFinalIgnorado | POSSystem.Domain/ValueObjects/Folio.cs:62 | Appending a NUL never changes what `int.TryParse` returns. |
| Text.ParseSoloBmp | POSSystem.Domain/ValueObjects/Folio.cs:62-66 | A string `int.TryParse` accepts has a UTF-16 length equal to its character count. |
| Text.Utf16 | POSSystem.Domain/Entities/Caja.cs:133 | The UTF-16 encoding of a string has between one and two units per character. |
| Text.Utf16Length | POSSystem.Domain/Entities/Caja.cs:133 | `string.Length` lies between the character count and twice it. |
| Text.Utf16LengthBmp | POSSystem.Domain/Entities/Caja.cs:133 | `Length` equals the character count exactly when every character lies in the BMP. |
| Text.Utf16Concat | POSSystem.Domain/Entities/Caja.cs:307 | The encoding of a concatenation is the concatenation of the encodings. |
| Text.TrimUtf16Length | POSSystem.Domain/Entities/Producto.cs:188 | Trimming never lengthens a string in code units. |
| Text.LexLeDigits | POSSystem.Infrastructure/Persistence/Repositories/FolioRepository.cs:46 | For digit strings of equal length, ordinal order is numeric order. |
| Text.PadDigits | POSSystem.Domain/ValueObjects/Folio.cs:33 | `ToString("D4")`: exactly the width, all digits, reading back as the number. |

## Left out

- The application use cases, except the confirm-then-audit step of sale finalisation (`MovimientosInventario.ConfirmarYAuditar`). They orchestrate repositories and transactions.
- Persistence (EF Core, SQLite), the WPF user interface and the background services. They are I/O.
- The rest of `TicketService`: `GenerarTicketVentaAsync`, `GenerarTicketCancelacionAsync`, `ConvertirATexto` and `GuardarTicketAsync`. These build and write text files.
- `GeneradorFolio`, mappers and DTOs. They only relay to the modelled parts.
- The lock in `ObtenerSiguienteConsecutivoPorFechaAsync` and its query engine. The query is modelled as a maximum over the stored folios under ordinal order.
- `EntityBase` creation and modification timestamps. They are clock writes with no rule attached.
- The 28-digit precision and overflow of `decimal`. `real` is exact. Integer overflow is modelled for the two wrapping sums in the findings (a sale line's quantity and the stock increment) and for the folio counter's `+ 1`; elsewhere the model uses exact integers.
- Exceptions the source throws for bad arguments become `Failure` or `None` results, and error messages become tags.
- "A failed operation leaves the entity unchanged" holds by construction: a `Fail` carries no new state.
- CalculadoraImpuestos.AMayusculas: `ToUpperInvariant` is modelled only for the characters whose upper case is an ASCII letter (a–z and the long s; the invariant culture leaves the dotless i unchanged). Other characters are left unchanged. Their true upper cases are never ASCII, so this cannot change whether a category matches an exempt name.
- DetallesVenta.IncrementarCantidad: uses the corrected, non-wrapping sum; the as-written wrap is `DetallesVenta.IncrementarCantidadInt32` (see "## Findings").
- Ventas.SumarALinea: uses the corrected, non-wrapping sum; the as-written wrap is `Ventas.SumarALineaInt32` (see "## Findings").
- Ventas.AgregarProducto: merges through the corrected `Ventas.SumarALinea`, so an `int` overflow is refused instead of tripping the invariant check.
- Ventas.EjecutarPreservaValida: is stated for the corrected merge; as written an overflowing merge throws (`Ventas.AgregarDesbordado`).
- Inventarios.IncrementarStock: uses the corrected, non-wrapping sum; the as-written wrap is `Inventarios.IncrementarStockInt32` (see "## Findings").
- Inventarios.EjecutarPreservaValido: is stated for the corrected increment; as written an overflowing increment yields an invalid record (`Inventarios.IncrementoStockDesbordado`).
- Text.TryParseInt32: only the invariant culture's sign strings ('-' and '+') are modelled; a current culture with other sign strings is not.
- Folios.FormatoFecha: assumes the Gregorian calendar; under a current culture with another calendar `ToString("yyyyMMdd")` prints other digits.
- CodigosBarras.Crear: `char.IsDigit` is modelled as ASCII digits plus the decimal-digit blocks of the Basic Multilingual Plane. That list may be incomplete.
- Cajas.EntradaCierre: the closing concept interpolates the declared, computed and difference figures in currency format. The model keeps only a fixed non-blank concept within the length limit.
- Dineros.Multiplicar: the `int` overload is the `decimal` overload with an integral factor, so it has no separate member.
- Dineros.Sumar: the exact-sum clause is stated for whole-cent operands, which every instance is, because `Nuevo` rounds.
- `Dinero.ToString` and `GetHashCode` are not modelled. They are formatting and hashing only.
- ValidadorInventario.ValidarStockParaVenta: the joined message text is replaced by the list of failing lines it is built from.

## Findings

| source | as written | input that shows it | evidently intended | confidence | as-written member | corrected member |
|---|---|---|---|---|---|---|
| POSSystem.Domain/Entities/Caja.cs:109 | `SaldoCalculado` adds the float to the ledger sum, but `Abrir` (lines 174-182) already puts the float into the ledger as the opening entry. The check at line 362 then compares a balance of F with a computed balance of 2F. | Open with 500.00, then record a sale of 23.20. The balance is 523.20, the computed balance is 1023.20, and the invariant exception is thrown. | The computed balance is the ledger sum alone, and every movement keeps the drawer balanced. | not executed | Cajas.AperturaDobleConteo, Cajas.EscenarioCajaComoEscrito | CajasCorregidas.EjecutarCuadra, CajasCorregidas.EscenarioCaja |
| POSSystem.Domain/Entities/Caja.cs:278 | The balance moves by the amount passed in. `MovimientoCaja.Crear` (MovimientoCaja.cs:100-104) stores outflows negated, so when a cancellation is passed a negative amount the ledger and the balance move in opposite directions. | `RegistrarCancelacion(-5.00)` on a drawer opened with no float. The entry stores −5.00, the balance becomes 5.00, and the invariant exception is thrown. | The balance moves by the stored amount, and a cancellation always takes money out. | not executed | Cajas.CancelacionNegativaDescuadra | CajasCorregidas.CancelacionNegativaRechazada, CajasCorregidas.RegistrarMovimiento |
| POSSystem.Domain/Entities/DetalleVenta.cs:136 | `Cantidad + cantidadAdicional` is unchecked `int` arithmetic. It can wrap negative and slip past the `> 9999` guard. | `IncrementarCantidad(2147483647)` on a line of quantity 1 stores −2147483648. | An increment is refused whenever the true sum exceeds 9999. | not executed | DetallesVenta.IncrementoDesbordado, Ventas.SumarALineaInt32, Ventas.AgregarDesbordado | DetallesVenta.IncrementarCantidad, Ventas.SumarALinea |
| POSSystem.Domain/Entities/Inventario.cs:205 | `StockFisico + cantidad` is unchecked `int` arithmetic. It can wrap negative and slip past the `> StockMaximo` guard. | A record with stock 10 and maximum 100: `IncrementarStock(2147483647)` stores −2147483639 and returns success. | An increment is refused whenever the true sum exceeds the maximum. | not executed | Inventarios.IncrementarStockInt32, Inventarios.IncrementoStockDesbordado | Inventarios.IncrementarStock |
