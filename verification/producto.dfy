/** `Producto`: a catalogue entry with its barcode, name and prices. The
    price rule `0 <= cost <= sale price, sale price > 0` is established by
    the factory and kept by every mutator. */
module Productos {
  import opened Outcomes
  import opened Text
  import opened CodigosBarras

  /** `id` is the identity `EntityBase` draws for the new product. */
  datatype Producto = Producto(
    id: EntityId,
    codigoBarras: CodigoBarras,
    nombre: string,
    descripcion: string,
    precioVenta: real,
    precioCosto: real,
    activo: bool,
    categoria: string,
    gravadoIVA: bool)

  datatype ProductoError =
    | CodigoRequerido
    | NombreRequerido
    | NombreDemasiadoLargo
    | PrecioVentaNoPositivo
    | CostoNegativo
    | CostoMayorQueVenta
    | PrecioMenorQueCosto

  const LongitudMaximaNombre: int := 200

  /** The price rule. */
  predicate PreciosValidos(p: Producto) {
    p.precioVenta > 0.0 && 0.0 <= p.precioCosto <= p.precioVenta
  }

  /** A name as the source stores it: non-empty, trimmed and short. */
  predicate NombreValido(nombre: string) {
    0 < Utf16Length(nombre) <= LongitudMaximaNombre && Trim(nombre) == nombre
  }

  predicate Valido(p: Producto) {
    PreciosValidos(p) && NombreValido(p.nombre)
  }

  /** The name check shared by `Crear` and `Actualizar`: the length limit
      applies to the untrimmed argument. */
  function ValidarNombre(nombre: Option<string>): (r: Option<ProductoError>)
    ensures r.None? <==> !IsNullOrWhiteSpace(nombre) && Utf16Length(nombre.value) <= LongitudMaximaNombre
    ensures r.None? ==> NombreValido(Trim(nombre.value))
    ensures IsNullOrWhiteSpace(nombre) ==> r == Some(NombreRequerido)
  {
    if IsNullOrWhiteSpace(nombre) then Some(NombreRequerido)
    else if Utf16Length(nombre.value) > LongitudMaximaNombre then Some(NombreDemasiadoLargo)
    else
      TrimIdempotent(nombre.value);
      TrimUtf16Length(nombre.value);
      None
  }

  /** The name limit counts UTF-16 code units: 101 copies of U+1F600 make
      202 units and are refused, while 100 copies fit exactly. */
  lemma NombreEnUnidades()
    ensures ValidarNombre(Some(seq(101, _ => '\U{1F600}'))) == Some(NombreDemasiadoLargo)
    ensures ValidarNombre(Some(seq(100, _ => '\U{1F600}'))).None?
  {
    var largo: string := seq(101, _ => '\U{1F600}');
    var corto: string := seq(100, _ => '\U{1F600}');
    Utf16LengthFueraBmp(largo);
    Utf16LengthFueraBmp(corto);
    assert !IsWhiteSpace(largo[0]) && !IsWhiteSpace(corto[0]);
  }

  /** `Producto.Crear`. */
  function Crear(id: EntityId, codigoBarras: Option<CodigoBarras>, nombre: Option<string>, precioVenta: real,
                 precioCosto: real, descripcion: Option<string>, categoria: Option<string>,
                 gravadoIVA: bool): (r: Result<Producto, ProductoError>)
    ensures r.Success? <==>
      && codigoBarras.Some?
      && ValidarNombre(nombre).None?
      && precioVenta > 0.0 && 0.0 <= precioCosto <= precioVenta
    ensures codigoBarras.None? ==> r == Failure(CodigoRequerido)
    ensures (codigoBarras.Some? && nombre.Some? && !IsBlank(nombre.value)
             && Utf16Length(nombre.value) > LongitudMaximaNombre) ==> r == Failure(NombreDemasiadoLargo)
    ensures r.Success? ==> Valido(r.value) && r.value.activo
    ensures r.Success? ==> (r.value.nombre == Trim(nombre.value)
                            && r.value.descripcion == TrimOrEmpty(descripcion)
                            && r.value.categoria == TrimOrEmpty(categoria))
    ensures r.Success? ==> r.value.id == id && r.value.codigoBarras == codigoBarras.value
                           && r.value.gravadoIVA == gravadoIVA
    ensures r.Success? ==> r.value.precioVenta == precioVenta && r.value.precioCosto == precioCosto
  {
    if codigoBarras.None? then Failure(CodigoRequerido)
    else if ValidarNombre(nombre).Some? then Failure(ValidarNombre(nombre).value)
    else if precioVenta <= 0.0 then Failure(PrecioVentaNoPositivo)
    else if precioCosto < 0.0 then Failure(CostoNegativo)
    else if precioCosto > precioVenta then Failure(CostoMayorQueVenta)
    else Success(Producto(id, codigoBarras.value, Trim(nombre.value), TrimOrEmpty(descripcion),
                          precioVenta, precioCosto, true, TrimOrEmpty(categoria), gravadoIVA))
  }

  /** `ActualizarPrecioVenta`. */
  function ActualizarPrecioVenta(p: Producto, nuevoPrecio: real): (r: Outcome<Producto, ProductoError>)
    ensures r.Ok? <==> nuevoPrecio > 0.0 && nuevoPrecio >= p.precioCosto
    ensures nuevoPrecio <= 0.0 ==> r == Fail(PrecioVentaNoPositivo)
    ensures r.Ok? ==> r.value == p.(precioVenta := nuevoPrecio)
    ensures Valido(p) && r.Ok? ==> Valido(r.value)
    ensures !r.InvariantViolated?
  {
    if nuevoPrecio <= 0.0 then Fail(PrecioVentaNoPositivo)
    else if nuevoPrecio < p.precioCosto then Fail(PrecioMenorQueCosto)
    else Ok(p.(precioVenta := nuevoPrecio))
  }

  /** `ActualizarPrecioCosto`. */
  function ActualizarPrecioCosto(p: Producto, nuevoCosto: real): (r: Outcome<Producto, ProductoError>)
    ensures r.Ok? <==> 0.0 <= nuevoCosto <= p.precioVenta
    ensures nuevoCosto < 0.0 ==> r == Fail(CostoNegativo)
    ensures r.Ok? ==> r.value == p.(precioCosto := nuevoCosto)
    ensures Valido(p) && r.Ok? ==> Valido(r.value)
    ensures !r.InvariantViolated?
  {
    if nuevoCosto < 0.0 then Fail(CostoNegativo)
    else if nuevoCosto > p.precioVenta then Fail(CostoMayorQueVenta)
    else Ok(p.(precioCosto := nuevoCosto))
  }

  /** `Desactivar`: the product can no longer be sold. */
  function Desactivar(p: Producto): (r: Producto)
    ensures !r.activo && r.(activo := p.activo) == p
  {
    p.(activo := false)
  }

  /** `Activar`: the product can be sold again. */
  function Activar(p: Producto): (r: Producto)
    ensures r.activo && r.(activo := p.activo) == p
  {
    p.(activo := true)
  }

  /** `Actualizar`: the descriptive fields, never the prices. */
  function Actualizar(p: Producto, nombre: Option<string>, descripcion: Option<string>,
                      categoria: Option<string>): (r: Outcome<Producto, ProductoError>)
    ensures r.Ok? <==> ValidarNombre(nombre).None?
    ensures r.Ok? ==> r.value.precioVenta == p.precioVenta && r.value.precioCosto == p.precioCosto
    ensures r.Ok? ==> (r.value.id == p.id && r.value.codigoBarras == p.codigoBarras && r.value.activo == p.activo
                       && r.value.gravadoIVA == p.gravadoIVA)
    ensures r.Ok? ==> (r.value.nombre == Trim(nombre.value) && r.value.descripcion == TrimOrEmpty(descripcion)
                       && r.value.categoria == TrimOrEmpty(categoria))
    ensures Valido(p) && r.Ok? ==> Valido(r.value)
    ensures !r.InvariantViolated?
  {
    match ValidarNombre(nombre)
    case Some(e) => Fail(e)
    case None =>
      Ok(p.(nombre := Trim(nombre.value), descripcion := TrimOrEmpty(descripcion),
            categoria := TrimOrEmpty(categoria)))
  }

  datatype Operacion =
    | CambiarPrecioVenta(precio: real)
    | CambiarPrecioCosto(costo: real)
    | OpDesactivar
    | OpActivar
    | OpActualizar(nombre: Option<string>, descripcion: Option<string>, categoria: Option<string>)

  /** One operation; a failed one leaves the product as it was. */
  function Aplicar(p: Producto, op: Operacion): Producto {
    match op
    case CambiarPrecioVenta(x) => var r := ActualizarPrecioVenta(p, x); if r.Ok? then r.value else p
    case CambiarPrecioCosto(x) => var r := ActualizarPrecioCosto(p, x); if r.Ok? then r.value else p
    case OpDesactivar => Desactivar(p)
    case OpActivar => Activar(p)
    case OpActualizar(n, d, c) => var r := Actualizar(p, n, d, c); if r.Ok? then r.value else p
  }

  function Ejecutar(p: Producto, ops: seq<Operacion>): Producto
    decreases |ops|
  {
    if |ops| == 0 then p else Ejecutar(Aplicar(p, ops[0]), ops[1..])
  }

  /** Every product reachable from a successful `Crear` satisfies the price
      rule and has a valid name. */
  lemma {:induction false} EjecutarPreservaValido(p: Producto, ops: seq<Operacion>)
    requires Valido(p)
    ensures Valido(Ejecutar(p, ops))
    decreases |ops|
  {
    if |ops| > 0 {
      EjecutarPreservaValido(Aplicar(p, ops[0]), ops[1..]);
    }
  }

  /** Only the two price operations ever change a price. */
  lemma {:induction false} SinOperacionesDePrecioNoCambianPrecios(p: Producto, ops: seq<Operacion>)
    requires forall i | 0 <= i < |ops| :: !ops[i].CambiarPrecioVenta? && !ops[i].CambiarPrecioCosto?
    ensures Ejecutar(p, ops).precioVenta == p.precioVenta
    ensures Ejecutar(p, ops).precioCosto == p.precioCosto
    decreases |ops|
  {
    if |ops| > 0 {
      SinOperacionesDePrecioNoCambianPrecios(Aplicar(p, ops[0]), ops[1..]);
    }
  }
}
