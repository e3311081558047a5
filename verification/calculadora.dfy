/** `CalculadoraImpuestos`: VAT arithmetic on exact decimals. Amounts are
    rounded to cents with halves away from zero; an argument out of range
    throws `ArgumentException`, modelled as a `Failure`. */
module CalculadoraImpuestos {
  import opened Outcomes
  import opened Text
  import opened Sumas
  import opened Redondeo

  const TasaIVAEstandar: real := 0.16
  const TasaIVACero: real := 0.0

  datatype ErrorCalculo =
    | SubtotalNegativo
    | TasaFueraDeRango
    | TotalNegativo
    | MultiploNoPositivo

  predicate TasaValida(tasa: real) {
    0.0 <= tasa <= 1.0
  }

  /** `CalcularIVA`: the tax on a subtotal, to the nearest cent. */
  function CalcularIVA(subtotal: real, tasa: real): (r: Result<real, ErrorCalculo>)
    ensures r.Success? <==> subtotal >= 0.0 && TasaValida(tasa)
    ensures subtotal < 0.0 ==> r == Failure(SubtotalNegativo)
    ensures subtotal >= 0.0 && !TasaValida(tasa) ==> r == Failure(TasaFueraDeRango)
    ensures r.Success? ==> EsDeCentavos(r.value) && r.value >= 0.0
    ensures r.Success? ==> -0.005 <= r.value - subtotal * tasa <= 0.005
    ensures r.Success? ==> -0.005 < r.value - subtotal * tasa
  {
    if subtotal < 0.0 then Failure(SubtotalNegativo)
    else if !TasaValida(tasa) then Failure(TasaFueraDeRango)
    else Success(Redondear2(subtotal * tasa))
  }

  /** `CalcularTotalConIVA`: the subtotal plus its rounded tax. */
  function CalcularTotalConIVA(subtotal: real, tasa: real): (r: Result<real, ErrorCalculo>)
    ensures r.Success? <==> CalcularIVA(subtotal, tasa).Success?
    ensures r.Failure? ==> r.error == CalcularIVA(subtotal, tasa).error
    ensures r.Success? ==> r.value == subtotal + CalcularIVA(subtotal, tasa).value && r.value >= subtotal
  {
    match CalcularIVA(subtotal, tasa)
    case Failure(e) => Failure(e)
    case Success(iva) => Success(subtotal + iva)
  }

  /** `DesglosarIVA`: splits a tax-inclusive total into a subtotal rounded
      to cents and the tax that makes up the rest, so the two parts add up
      to the total exactly. */
  function DesglosarIVA(total: real, tasa: real): (r: Result<(real, real), ErrorCalculo>)
    ensures r.Success? <==> total >= 0.0 && TasaValida(tasa)
    ensures total < 0.0 ==> r == Failure(TotalNegativo)
    ensures r.Success? ==> r.value.0 + r.value.1 == total
    ensures r.Success? ==> EsDeCentavos(r.value.0) && -0.005 <= r.value.0 - total / (1.0 + tasa) <= 0.005
    ensures r.Success? ==> -0.005 < r.value.0 - total / (1.0 + tasa)
  {
    assert total >= 0.0 && TasaValida(tasa) ==> total / (1.0 + tasa) >= 0.0;
    if total < 0.0 then Failure(TotalNegativo)
    else if !TasaValida(tasa) then Failure(TasaFueraDeRango)
    else
      var subtotal := Redondear2(total / (1.0 + tasa));
      Success((subtotal, total - subtotal))
  }

  /** Splitting the total computed for a whole number of cents gives back
      that subtotal and its tax. */
  lemma DesglosarTotalConIVA(subtotal: real, tasa: real)
    requires subtotal >= 0.0 && EsDeCentavos(subtotal) && TasaValida(tasa)
    ensures DesglosarIVA(CalcularTotalConIVA(subtotal, tasa).value, tasa)
            == Success((subtotal, CalcularIVA(subtotal, tasa).value))
  {
    var k, n := EnCentavos(subtotal, tasa);
    var total := CalcularTotalConIVA(subtotal, tasa).value;
    assert total * 100.0 == k as real + n as real;
    var y := total / (1.0 + tasa);
    var e := (n as real - k as real * tasa) / (1.0 + tasa);
    CercaDeMitad(n, k as real * tasa, tasa);
    Escalar(total, y, tasa, k, n, e);
    CercaDeEntero(k, e);
    assert RedondearLejosDeCero(y * 100.0) == k;
    assert Redondear2(y) == subtotal;
  }

  /** A subtotal of `k` cents and its tax of `n` cents, where `n` is `k`
      times the rate rounded to a whole number. */
  lemma EnCentavos(subtotal: real, tasa: real) returns (k: int, n: int)
    requires subtotal >= 0.0 && EsDeCentavos(subtotal) && TasaValida(tasa)
    ensures k as real == subtotal * 100.0
    ensures CalcularIVA(subtotal, tasa) == Success(n as real / 100.0)
    ensures k as real * tasa >= 0.0
    ensures n as real - 0.5 <= k as real * tasa < n as real + 0.5
    ensures tasa == 0.0 ==> k as real * tasa == n as real
  {
    k := (subtotal * 100.0).Floor;
    n := RedondearLejosDeCero(subtotal * tasa * 100.0);
    assert subtotal * tasa * 100.0 == k as real * tasa;
  }

  /** Dividing a rounding error of at most half a cent by `1 + tasa` leaves
      it strictly below half a cent (and zero at the zero rate). */
  lemma CercaDeMitad(n: int, v: real, tasa: real)
    requires TasaValida(tasa) && v >= 0.0
    requires n as real - 0.5 <= v < n as real + 0.5
    requires tasa == 0.0 ==> v == n as real
    ensures -0.5 < (n as real - v) / (1.0 + tasa) < 0.5
  {
    var d := n as real - v;
    var q := d / (1.0 + tasa);
    assert q * (1.0 + tasa) == d;
  }

  /** In cents, the total divided by `1 + tasa` is the subtotal plus the
      scaled rounding error. */
  lemma Escalar(total: real, y: real, tasa: real, k: int, n: int, e: real)
    requires TasaValida(tasa)
    requires total * 100.0 == k as real + n as real
    requires y == total / (1.0 + tasa)
    requires e == (n as real - k as real * tasa) / (1.0 + tasa)
    ensures y * 100.0 == k as real + e
  {
    assert e * (1.0 + tasa) == n as real - k as real * tasa;
    assert y * (1.0 + tasa) == total;
    assert (k as real + e) * (1.0 + tasa) == total * 100.0;
    assert (y * 100.0) * (1.0 + tasa) == total * 100.0;
  }

  /** The tax of one item, and zero for an item that would throw. */
  function IVADe(item: (real, real)): real {
    var iva := CalcularIVA(item.0, item.1);
    if iva.Success? then iva.value else 0.0
  }

  /** `CalcularIVAMultiple`: the sum of each item's tax; the first invalid
      item throws. */
  method CalcularIVAMultiple(items: seq<(real, real)>) returns (r: Result<real, ErrorCalculo>)
    ensures r.Success? <==> forall i | 0 <= i < |items| :: CalcularIVA(items[i].0, items[i].1).Success?
    ensures r.Success? ==> r.value == Suma(items, IVADe) && r.value >= 0.0
    ensures r.Failure? ==> exists j | 0 <= j < |items| ::
      && CalcularIVA(items[j].0, items[j].1) == Failure(r.error)
      && forall i | 0 <= i < j :: CalcularIVA(items[i].0, items[i].1).Success?
  {
    var total := 0.0;
    var i := 0;
    while i < |items|
      invariant 0 <= i <= |items|
      invariant forall h | 0 <= h < i :: CalcularIVA(items[h].0, items[h].1).Success?
      invariant total == Suma(items[..i], IVADe) && total >= 0.0
    {
      var iva := CalcularIVA(items[i].0, items[i].1);
      if iva.Failure? {
        assert CalcularIVA(items[i].0, items[i].1) == Failure(iva.error);
        return Failure(iva.error);
      }
      assert items[..i + 1] == items[..i] + [items[i]];
      SumaAgregar(items[..i], items[i], IVADe);
      total := total + iva.value;
      i := i + 1;
    }
    assert items[..i] == items;
    return Success(total);
  }

  /** `RedondearMonto`: the nearest multiple of `multiplo`, halves away
      from zero. */
  function RedondearMonto(monto: real, multiplo: real): (r: Result<real, ErrorCalculo>)
    ensures r.Success? <==> multiplo > 0.0
    ensures r.Success? ==> (r.value / multiplo).Floor as real == r.value / multiplo
    ensures r.Success? ==> -multiplo / 2.0 <= r.value - monto <= multiplo / 2.0
    ensures r.Success? && monto >= 0.0 ==> -multiplo / 2.0 < r.value - monto
    ensures r.Success? && monto < 0.0 ==> r.value - monto < multiplo / 2.0
  {
    if multiplo <= 0.0 then Failure(MultiploNoPositivo)
    else
      var n := RedondearLejosDeCero(monto / multiplo);
      MultiploCercano(monto, multiplo, n);
      MitadHaciaFuera(monto, multiplo, n);
      Success(n as real * multiplo)
  }

  lemma MultiploCercano(monto: real, multiplo: real, n: int)
    requires multiplo > 0.0
    requires -0.5 <= monto / multiplo - n as real <= 0.5
    ensures n as real * multiplo / multiplo == n as real
    ensures (n as real * multiplo / multiplo).Floor == n
    ensures -multiplo / 2.0 <= n as real * multiplo - monto <= multiplo / 2.0
  {
    assert n as real * multiplo / multiplo == n as real;
    var q := monto / multiplo;
    var d := q - n as real;
    assert q * multiplo == monto;
    assert d * multiplo == monto - n as real * multiplo;
    MulAcotado(d, multiplo);
  }

  /** Halves go away from zero: up for a non-negative amount, down for a
      negative one. */
  lemma MitadHaciaFuera(monto: real, multiplo: real, n: int)
    requires multiplo > 0.0
    requires monto >= 0.0 ==> -0.5 <= monto / multiplo - n as real < 0.5
    requires monto < 0.0 ==> -0.5 < monto / multiplo - n as real <= 0.5
    ensures monto >= 0.0 ==> -multiplo / 2.0 < n as real * multiplo - monto
    ensures monto < 0.0 ==> n as real * multiplo - monto < multiplo / 2.0
  {
    var q := monto / multiplo;
    var d := q - n as real;
    assert q * multiplo == monto;
    assert d * multiplo == monto - n as real * multiplo;
    if monto >= 0.0 {
      assert d * multiplo < 0.5 * multiplo;
    } else {
      assert d * multiplo > -0.5 * multiplo;
    }
  }

  /** The source's default step for `RedondearMonto`. */
  const MultiploPorDefecto: real := 0.05

  /** With the default step of five cents the result is always a multiple
      of five cents within two and a half cents of the amount. */
  lemma RedondeoPorDefecto(monto: real)
    ensures var r := RedondearMonto(monto, MultiploPorDefecto);
      && r.Success?
      && (r.value / 0.05).Floor as real == r.value / 0.05
      && -0.025 <= r.value - monto <= 0.025
  {
  }

  lemma MulAcotado(d: real, m: real)
    requires -0.5 <= d <= 0.5 && m > 0.0
    ensures -m / 2.0 <= d * m <= m / 2.0
  {
    if d >= 0.0 {
      assert d * m <= 0.5 * m;
    } else {
      assert d * m >= -0.5 * m;
    }
  }

  // ---------------------------------------------------------------------
  // Categories
  // ---------------------------------------------------------------------

  const CategoriasExentas: seq<string> := ["ALIMENTOS_BASICOS", "MEDICINAS", "LIBROS", "PERIODICOS"]

  /** `char.ToUpperInvariant` on the characters whose upper case is an
      ASCII letter: a-z and the long s. The invariant culture leaves the
      dotless i (U+0131) as it is. Every other character is left alone; the
      upper cases the model does not compute are never ASCII, so they
      cannot make a category match an exempt name either way. */
  function MayusculaDe(c: char): char {
    if 'a' <= c <= 'z' then (c as int - 32) as char
    else if c == 'ſ' then 'S'
    else c
  }

  function AMayusculas(s: string): (r: string)
    ensures |r| == |s|
    ensures forall i | 0 <= i < |s| :: r[i] == MayusculaDe(s[i])
  {
    if |s| == 0 then "" else [MayusculaDe(s[0])] + AMayusculas(s[1..])
  }

  /** Upper-casing neither creates nor removes whitespace. */
  lemma BlancoMayusculas(s: string)
    ensures IsBlank(AMayusculas(s)) == IsBlank(s)
  {
    var u := AMayusculas(s);
    forall i | 0 <= i < |s|
      ensures IsWhiteSpace(u[i]) == IsWhiteSpace(s[i])
    {
      BlancoDeMayuscula(s[i]);
    }
  }

  lemma BlancoDeMayuscula(c: char)
    ensures IsWhiteSpace(MayusculaDe(c)) == IsWhiteSpace(c)
  {
  }

  /** Upper-casing twice is upper-casing once. */
  lemma AMayusculasIdempotente(s: string)
    ensures AMayusculas(AMayusculas(s)) == AMayusculas(s)
  {
  }

  /** `DebeAplicarIVAEstandar`: a blank category is taxed; otherwise it is
      taxed unless, upper-cased and trimmed, it is one of the exempt names. */
  function DebeAplicarIVAEstandar(categoria: Option<string>): (r: bool)
    ensures IsNullOrWhiteSpace(categoria) ==> r
    ensures !r <==> !IsNullOrWhiteSpace(categoria) && Trim(AMayusculas(categoria.value)) in CategoriasExentas
  {
    if IsNullOrWhiteSpace(categoria) then true
    else Trim(AMayusculas(categoria.value)) !in CategoriasExentas
  }

  /** `ObtenerTasaIVAPorCategoria`. */
  function ObtenerTasaIVAPorCategoria(categoria: Option<string>): (r: real)
    ensures r == TasaIVAEstandar || r == TasaIVACero
    ensures r == TasaIVACero <==> !DebeAplicarIVAEstandar(categoria)
    ensures TasaValida(r)
  {
    if DebeAplicarIVAEstandar(categoria) then TasaIVAEstandar else TasaIVACero
  }

  /** Letter case does not change a category's rate. */
  lemma TasaSinDistinguirMayusculas(categoria: string)
    ensures ObtenerTasaIVAPorCategoria(Some(AMayusculas(categoria))) == ObtenerTasaIVAPorCategoria(Some(categoria))
  {
    AMayusculasIdempotente(categoria);
    BlancoMayusculas(categoria);
  }

  /** The invariant upper case of a dotless i is itself, and no exempt name
      contains one: a category spelt with it, such as "lıbros", is taxed. */
  lemma IPuntoGravada(categoria: string)
    requires 'ı' in categoria
    ensures DebeAplicarIVAEstandar(Some(categoria))
    ensures ObtenerTasaIVAPorCategoria(Some(categoria)) == TasaIVAEstandar
  {
    var k :| 0 <= k < |categoria| && categoria[k] == 'ı';
    var u := AMayusculas(categoria);
    assert u[k] == 'ı';
    assert !IsBlank(categoria);
    NoBlancoSobreviveTrim(u, k);
    var t := Trim(u);
    forall n | n in CategoriasExentas
      ensures 'ı' !in n
    {
      AsciiSinIPunto(n);
    }
    assert t !in CategoriasExentas;
  }

  /** Every exempt name is upper-case ASCII. */
  lemma AsciiSinIPunto(n: string)
    requires n in CategoriasExentas
    ensures forall i | 0 <= i < |n| :: n[i] as int < 0x80
  {
  }

  /** A non-whitespace character survives trimming. */
  lemma NoBlancoSobreviveTrim(s: string, k: nat)
    requires k < |s| && !IsWhiteSpace(s[k])
    ensures s[k] in Trim(s)
  {
    var a := LeadingCount(s, IsWhiteSpace);
    var r := TrimBy(s, IsWhiteSpace);
    assert a <= k < a + |r|;
    assert r[k - a] == s[k];
  }

  /** "libros" is exempt. */
  lemma LibrosExentos()
    ensures ObtenerTasaIVAPorCategoria(Some("libros")) == TasaIVACero
  {
    SinBordesBlancos("libros");
    MayusculasLibros();
    SinBordesBlancos("LIBROS");
    assert Trim(AMayusculas("libros")) == CategoriasExentas[2];
  }

  /** "Ropa" pays the standard rate. */
  lemma RopaGravada()
    ensures ObtenerTasaIVAPorCategoria(Some("Ropa")) == TasaIVAEstandar
  {
    SinBordesBlancos("Ropa");
    MayusculasRopa();
    SinBordesBlancos("ROPA");
    assert Trim(AMayusculas("Ropa")) == "ROPA";
  }

  /** A non-empty string with no whitespace at either end is not blank and
      trims to itself. */
  lemma SinBordesBlancos(s: string)
    requires |s| > 0 && !IsWhiteSpace(s[0]) && !IsWhiteSpace(s[|s| - 1])
    ensures !IsBlank(s) && Trim(s) == s
  {
    TrimByClean(s, IsWhiteSpace);
  }

  lemma MayusculasLibros()
    ensures AMayusculas("libros") == "LIBROS"
  {
    var l := AMayusculas("libros");
    assert l[0] == 'L' && l[1] == 'I' && l[2] == 'B' && l[3] == 'R' && l[4] == 'O' && l[5] == 'S';
  }

  lemma MayusculasRopa()
    ensures AMayusculas("Ropa") == "ROPA"
  {
    var r := AMayusculas("Ropa");
    assert r[0] == 'R' && r[1] == 'O' && r[2] == 'P' && r[3] == 'A';
  }
}
