/** The `Folio` value object: a sale number of the form `yyyyMMdd-NNNN`.
    The date `Crear` stamps is an explicit argument. */
module Folios {
  import opened Outcomes
  import opened Text

  datatype FechaCampos = FechaCampos(anio: int, mes: int, dia: int)

  /** Gregorian leap years. */
  predicate Bisiesto(anio: int) {
    anio % 4 == 0 && (anio % 100 != 0 || anio % 400 == 0)
  }

  function DiasDelMes(anio: int, mes: int): int {
    if mes == 2 then (if Bisiesto(anio) then 29 else 28)
    else if mes == 4 || mes == 6 || mes == 9 || mes == 11 then 30
    else 31
  }

  /** A calendar date as `DateTime` can hold it (Gregorian calendar). */
  type Fecha = f: FechaCampos | 1 <= f.anio <= 9999 && 1 <= f.mes <= 12 && 1 <= f.dia <= DiasDelMes(f.anio, f.mes)
    witness FechaCampos(2024, 1, 1)

  /** `fecha.ToString("yyyyMMdd")`. */
  function FormatoFecha(f: Fecha): (s: string)
    ensures |s| == 8 && AllAsciiDigits(s)
    ensures DigitsValue(s[..4]) == f.anio && DigitsValue(s[4..6]) == f.mes && DigitsValue(s[6..]) == f.dia
  {
    var y := PadDigits(f.anio, 4);
    var m := PadDigits(f.mes, 2);
    var d := PadDigits(f.dia, 2);
    var s := y + m + d;
    assert s[..4] == y && s[4..6] == m && s[6..] == d;
    s
  }

  datatype Folio = Folio(valor: string)

  datatype FolioError = ConsecutivoFueraDeRango | FolioVacio | FormatoInvalido

  const ConsecutivoMaximo: int := 9999

  /** `Folio.Crear(consecutivo)` stamped with `fecha`. */
  function Crear(consecutivo: int, fecha: Fecha): (r: Result<Folio, FolioError>)
    ensures r.Success? <==> 1 <= consecutivo <= ConsecutivoMaximo
    ensures r.Success? ==> |r.value.valor| == 13 && r.value.valor[8] == '-'
    ensures r.Success? ==> r.value.valor[..8] == FormatoFecha(fecha)
    ensures r.Success? ==> AllAsciiDigits(r.value.valor[9..]) && DigitsValue(r.value.valor[9..]) == consecutivo
  {
    if consecutivo < 1 || consecutivo > ConsecutivoMaximo then Failure(ConsecutivoFueraDeRango)
    else
      var fechaStr := FormatoFecha(fecha);
      var numero := PadDigits(consecutivo, 4);
      var valor := fechaStr + "-" + numero;
      assert valor[..8] == fechaStr && valor[9..] == numero;
      Success(Folio(valor))
  }

  /** The private format check: not blank, exactly two parts around '-',
      of lengths 8 and 4, each accepted by `int.TryParse`. */
  predicate EsFormatoValido(valor: string) {
    !IsBlank(valor) && PartesValidas(Split(valor, '-'))
  }

  predicate PartesValidas(partes: seq<string>) {
    && |partes| == 2
    && |partes[0]| == 8 && TryParseInt32(partes[0]).Some?
    && |partes[1]| == 4 && TryParseInt32(partes[1]).Some?
  }

  /** The source measures the parts with `string.Length`, in UTF-16 code
      units; a part `int.TryParse` accepts has no character outside the
      BMP, so counting characters decides the same. */
  lemma PartesEnUnidades(partes: seq<string>)
    ensures PartesValidas(partes) <==>
      && |partes| == 2
      && Utf16Length(partes[0]) == 8 && TryParseInt32(partes[0]).Some?
      && Utf16Length(partes[1]) == 4 && TryParseInt32(partes[1]).Some?
  {
    if |partes| == 2 && TryParseInt32(partes[0]).Some? && TryParseInt32(partes[1]).Some? {
      ParseSoloBmp(partes[0]);
      ParseSoloBmp(partes[1]);
    }
  }

  /** `Folio.Desde`: rehydrates a stored folio, verbatim. */
  function Desde(valor: Option<string>): (r: Result<Folio, FolioError>)
    ensures r.Success? <==> !IsNullOrWhiteSpace(valor) && EsFormatoValido(valor.value)
    ensures IsNullOrWhiteSpace(valor) ==> r == Failure(FolioVacio)
    ensures r.Success? ==> r.value.valor == valor.value
    ensures r.Success? ==> |r.value.valor| == 13 && r.value.valor[8] == '-' && '-' !in r.value.valor[..8]
  {
    if IsNullOrWhiteSpace(valor) then Failure(FolioVacio)
    else if !EsFormatoValido(valor.value) then Failure(FormatoInvalido)
    else
      FormatoValidoForma(valor.value);
      Success(Folio(valor.value))
  }

  /** The shape every accepted folio has: 13 characters, one '-' at index 8. */
  lemma FormatoValidoForma(valor: string)
    requires EsFormatoValido(valor)
    ensures |valor| == 13 && valor[8] == '-' && '-' !in valor[..8] && '-' !in valor[9..]
  {
    var partes := Split(valor, '-');
    assert PartesValidas(partes);
    assert partes == [partes[0], partes[1]];
    DosPartes(valor, partes[0], partes[1]);
  }

  /** A string that splits into two parts is those parts around the separator. */
  lemma DosPartes(valor: string, a: string, b: string)
    requires Split(valor, '-') == [a, b]
    ensures valor == a + "-" + b && '-' !in a && '-' !in b
  {
    var partes := Split(valor, '-');
    assert partes[1..] == [b];
    assert Join(partes, '-') == a + ['-'] + b;
  }

  /** A digits-only string has no '-'. */
  lemma DigitosSinGuion(s: string)
    requires AllAsciiDigits(s)
    ensures '-' !in s
  {
  }

  /** Eight digits, '-', four digits: always a valid folio. */
  lemma FormatoDeDigitos(a: string, b: string)
    requires |a| == 8 && |b| == 4 && AllAsciiDigits(a) && AllAsciiDigits(b)
    ensures EsFormatoValido(a + "-" + b)
  {
    var valor := a + "-" + b;
    DigitosSinGuion(a);
    DigitosSinGuion(b);
    SplitTwo(a, b, '-');
    ShortDigitsParse(a);
    ShortDigitsParse(b);
    assert PartesValidas([a, b]);
    assert valor[0] == a[0] && IsAsciiDigit(a[0]);
  }

  /** Round trip: a folio built by `Crear` is accepted by `Desde` unchanged. */
  lemma CrearDesde(consecutivo: int, fecha: Fecha)
    requires Crear(consecutivo, fecha).Success?
    ensures Desde(Some(Crear(consecutivo, fecha).value.valor)) == Crear(consecutivo, fecha)
  {
    var valor := Crear(consecutivo, fecha).value.valor;
    var a := valor[..8];
    var b := valor[9..];
    assert valor == a + "-" + b;
    FormatoDeDigitos(a, b);
  }

  /** `int.TryParse` ignores NULs after a number, so a date part of seven
      digits and a NUL passes the check: `Desde` accepts "2024010\0-0001",
      whose date part is not eight digits. */
  lemma DesdeConNulo(siete: string, b: string)
    requires |siete| == 7 && |b| == 4 && AllAsciiDigits(siete) && AllAsciiDigits(b)
    ensures Desde(Some(siete + ['\0'] + "-" + b)).Success?
    ensures !AllAsciiDigits((siete + ['\0'] + "-" + b)[..8])
  {
    var a := siete + ['\0'];
    var v := a + "-" + b;
    PartesConNulo(siete, b);
    assert v[0] == siete[0] && IsAsciiDigit(siete[0]);
    assert !IsBlank(v);
    assert EsFormatoValido(v);
    assert v[..8] == a && a[7] == '\0';
  }

  lemma PartesConNulo(siete: string, b: string)
    requires |siete| == 7 && |b| == 4 && AllAsciiDigits(siete) && AllAsciiDigits(b)
    ensures Split(siete + ['\0'] + "-" + b, '-') == [siete + ['\0'], b]
    ensures PartesValidas([siete + ['\0'], b])
  {
    var a := siete + ['\0'];
    DigitosSinGuion(siete);
    DigitosSinGuion(b);
    assert '-' !in a;
    SplitTwo(a, b, '-');
    ShortDigitsParse(siete);
    NulFinalIgnorado(siete);
    ShortDigitsParse(b);
  }

  /** Two folios built for the same day are equal exactly when their
      numbers are. */
  lemma CrearInyectivo(c1: int, c2: int, fecha: Fecha)
    requires Crear(c1, fecha).Success? && Crear(c2, fecha).Success?
    ensures Crear(c1, fecha) == Crear(c2, fecha) <==> c1 == c2
  {
    if Crear(c1, fecha) == Crear(c2, fecha) {
      assert Crear(c1, fecha).value.valor[9..] == Crear(c2, fecha).value.valor[9..];
    }
  }

  /** `Equals(Folio other)`: a null argument is never equal. */
  function Equals(a: Folio, other: Option<Folio>): (r: bool)
    ensures r <==> other == Some(a)
  {
    if other.None? then false else a.valor == other.value.valor
  }

  /** `operator ==`: two nulls are equal, one null is not. */
  function OperadorIgual(left: Option<Folio>, right: Option<Folio>): (r: bool)
    ensures r <==> left == right
  {
    if left.None? && right.None? then true
    else if left.None? || right.None? then false
    else Equals(left.value, right)
  }
}
