/** The `CodigoBarras` value object: a trimmed barcode of 6 to 20 digits
    (any Unicode decimal digit of the BMP counts, as `char.IsDigit` says). */
module CodigosBarras {
  import opened Outcomes
  import opened Text

  datatype CodigoBarras = CodigoBarras(valor: string)

  datatype CodigoError = Vacio | NoNumerico | LongitudInvalida

  /** Every character is a decimal digit. */
  predicate EsFormatoValido(valor: string) {
    forall i | 0 <= i < |valor| :: IsDigit(valor[i])
  }

  predicate EsLongitudValida(valor: string) {
    6 <= |valor| <= 20
  }

  /** What every barcode the factory builds looks like. */
  predicate Valido(c: CodigoBarras) {
    EsFormatoValido(c.valor) && EsLongitudValida(c.valor)
  }

  /** `CodigoBarras.Crear`: blank input is refused; everything else is
      judged after trimming. */
  function Crear(valor: Option<string>): (r: Result<CodigoBarras, CodigoError>)
    ensures IsNullOrWhiteSpace(valor) <==> r == Failure(Vacio)
    ensures r.Success? <==>
      !IsNullOrWhiteSpace(valor) && EsFormatoValido(Trim(valor.value)) && EsLongitudValida(Trim(valor.value))
    ensures !IsNullOrWhiteSpace(valor) && !EsFormatoValido(Trim(valor.value)) ==> r == Failure(NoNumerico)
    ensures r.Success? ==> r.value.valor == Trim(valor.value) && Valido(r.value)
  {
    if IsNullOrWhiteSpace(valor) then Failure(Vacio)
    else
      var v := Trim(valor.value);
      if !EsFormatoValido(v) then Failure(NoNumerico)
      else if !EsLongitudValida(v) then Failure(LongitudInvalida)
      else Success(CodigoBarras(v))
  }

  /** The length check is reached only with all-digit strings, whose
      UTF-16 length (the source's `Length`) is their character count. */
  lemma LongitudEnUnidades(v: string)
    requires EsFormatoValido(v)
    ensures Utf16Length(v) == |v|
    ensures EsLongitudValida(v) <==> 6 <= Utf16Length(v) <= 20
  {
    Utf16LengthBmp(v);
  }

  /** No decimal digit is whitespace. */
  lemma DigitNotWhiteSpace(c: char)
    requires IsDigit(c)
    ensures !IsWhiteSpace(c)
  {
  }

  /** Rebuilding a barcode from its own value gives it back. */
  lemma {:induction false} CrearIdempotente(valor: Option<string>)
    requires Crear(valor).Success?
    ensures Crear(Some(Crear(valor).value.valor)) == Crear(valor)
  {
    CrearDeValido(Crear(valor).value);
  }

  /** Exactly the valid barcodes are fixed points of the factory. */
  lemma {:induction false} CrearDeValido(c: CodigoBarras)
    ensures Crear(Some(c.valor)) == Success(c) <==> Valido(c)
  {
    if Valido(c) {
      DigitNotWhiteSpace(c.valor[0]);
      DigitNotWhiteSpace(c.valor[|c.valor| - 1]);
      TrimByClean(c.valor, IsWhiteSpace);
    }
  }

  /** `Equals(CodigoBarras other)`: a null argument is never equal. */
  function Equals(a: CodigoBarras, other: Option<CodigoBarras>): (r: bool)
    ensures r <==> other == Some(a)
  {
    if other.None? then false else a.valor == other.value.valor
  }

  /** `operator ==`: two nulls are equal, one null is not. */
  function OperadorIgual(left: Option<CodigoBarras>, right: Option<CodigoBarras>): (r: bool)
    ensures r <==> left == right
  {
    if left.None? && right.None? then true
    else if left.None? || right.None? then false
    else Equals(left.value, right)
  }
}
