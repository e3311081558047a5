/** The numbering rule of `FolioRepository.ObtenerSiguienteConsecutivoPorFechaAsync`:
    take the greatest stored folio (ordinal order, as the database sorts
    text) that starts with the day's `yyyyMMdd`, and return one more than
    the number after its '-'. The stored folios are an explicit sequence;
    the lock and the query engine are not modelled. */
module FolioRepositorio {
  import opened Outcomes
  import opened Text
  import opened Folios

  /** The greatest string of `xs` starting with `prefijo`, if any
      (`Where(StartsWith).OrderByDescending().FirstOrDefault()`). */
  function Ultimo(xs: seq<string>, prefijo: string): (r: Option<string>)
    ensures r.None? <==> forall i | 0 <= i < |xs| :: !StartsWith(xs[i], prefijo)
    ensures r.Some? ==> r.value in xs && StartsWith(r.value, prefijo)
    ensures r.Some? ==> forall i | 0 <= i < |xs| && StartsWith(xs[i], prefijo) :: LexLe(xs[i], r.value)
    decreases |xs|
  {
    if |xs| == 0 then None
    else
      var resto := Ultimo(xs[1..], prefijo);
      assert forall i | 1 <= i < |xs| :: xs[i] == xs[1..][i - 1];
      if !StartsWith(xs[0], prefijo) then resto
      else if resto.None? then
        LexLeReflexive(xs[0]);
        Some(xs[0])
      else if LexLe(xs[0], resto.value) then resto
      else
        LexLeTotal(xs[0], resto.value);
        MayorQueTodos(xs, prefijo, resto.value);
        Some(xs[0])
  }

  lemma {:induction false} LexLeReflexive(a: string)
    ensures LexLe(a, a)
  {
    if |a| > 0 {
      LexLeReflexive(a[1..]);
    }
  }

  /** If `xs[0]` is above the greatest of the rest, it is above all of them. */
  lemma MayorQueTodos(xs: seq<string>, prefijo: string, m: string)
    requires |xs| > 0 && LexLe(m, xs[0])
    requires forall i | 1 <= i < |xs| && StartsWith(xs[i], prefijo) :: LexLe(xs[i], m)
    ensures forall i | 0 <= i < |xs| && StartsWith(xs[i], prefijo) :: LexLe(xs[i], xs[0])
  {
    forall i | 0 <= i < |xs| && StartsWith(xs[i], prefijo)
      ensures LexLe(xs[i], xs[0])
    {
      if i == 0 {
        LexLeReflexive(xs[0]);
      } else {
        LexLeTransitive(xs[i], m, xs[0]);
      }
    }
  }

  /** `consecutivo + 1` in unchecked 32-bit arithmetic. */
  function IncrementoInt32(v: int): (r: int)
    requires MinInt32 <= v <= MaxInt32
    ensures MinInt32 <= r <= MaxInt32
    ensures v < MaxInt32 ==> r == v + 1
    ensures v == MaxInt32 ==> r == MinInt32
  {
    if v == MaxInt32 then MinInt32 else v + 1
  }

  /** The next number for the day `fecha`, given the stored folios. */
  function SiguienteConsecutivo(existentes: seq<string>, fecha: Fecha): int {
    match Ultimo(existentes, FormatoFecha(fecha))
    case None => 1
    case Some(ultimo) =>
      var partes := Split(ultimo, '-');
      if |partes| == 2 && TryParseInt32(partes[1]).Some? then IncrementoInt32(TryParseInt32(partes[1]).value)
      else 1
  }

  /** No folio of the day yet: the day starts at 1. */
  lemma PrimerFolioDelDia(existentes: seq<string>, fecha: Fecha)
    ensures (forall i | 0 <= i < |existentes| :: !StartsWith(existentes[i], FormatoFecha(fecha)))
            ==> SiguienteConsecutivo(existentes, fecha) == 1
  {
  }

  /** The number is taken from the greatest folio of the day; one that does
      not split into two parts with a parseable second part gives 1. */
  lemma SiguienteDesdeUltimo(existentes: seq<string>, fecha: Fecha, ultimo: string)
    requires Ultimo(existentes, FormatoFecha(fecha)) == Some(ultimo)
    ensures var partes := Split(ultimo, '-');
      && (|partes| == 2 && TryParseInt32(partes[1]).Some? && TryParseInt32(partes[1]).value < MaxInt32
          ==> SiguienteConsecutivo(existentes, fecha) == TryParseInt32(partes[1]).value + 1)
      && (!(|partes| == 2 && TryParseInt32(partes[1]).Some?) ==> SiguienteConsecutivo(existentes, fecha) == 1)
  {
  }

  /** A stored folio of the day `fecha` in the form `Folio.Crear` writes. */
  predicate FolioDelDia(x: string, fecha: Fecha) {
    |x| == 13 && x[..8] == FormatoFecha(fecha) && x[8] == '-' && AllAsciiDigits(x[9..])
  }

  function Numero(x: string): nat
    requires |x| >= 9 && AllAsciiDigits(x[9..])
  {
    DigitsValue(x[9..])
  }

  /** A folio of the day splits into its date and its number, and the
      number parses. */
  lemma PartesDeFolioDelDia(x: string, fecha: Fecha)
    requires FolioDelDia(x, fecha)
    ensures Split(x, '-') == [x[..8], x[9..]]
    ensures TryParseInt32(x[9..]) == Some(Numero(x))
  {
    assert x == x[..8] + "-" + x[9..];
    DigitosSinGuion(x[..8]);
    DigitosSinGuion(x[9..]);
    SplitTwo(x[..8], x[9..], '-');
    ShortDigitsParse(x[9..]);
  }

  /** Between folios of the same day, ordinal order is numeric order. */
  lemma OrdenDeFolios(x: string, y: string, fecha: Fecha)
    requires FolioDelDia(x, fecha) && FolioDelDia(y, fecha)
    ensures LexLe(x, y) <==> Numero(x) <= Numero(y)
  {
    var p := x[..9];
    assert y[..9] == p;
    assert x == p + x[9..] && y == p + y[9..];
    LexLeCommonPrefix(p, x[9..], y[9..]);
    LexLeDigits(x[9..], y[9..]);
  }

  /** When the greatest folio of the day has the stored form, the next
      number is one above its number, and so at most 10000. */
  lemma SiguienteTrasFolio(existentes: seq<string>, fecha: Fecha, ultimo: string)
    requires Ultimo(existentes, FormatoFecha(fecha)) == Some(ultimo) && FolioDelDia(ultimo, fecha)
    ensures SiguienteConsecutivo(existentes, fecha) == Numero(ultimo) + 1 <= 10000
  {
    PartesDeFolioDelDia(ultimo, fecha);
    assert Pow10(|ultimo[9..]|) == 10000;
  }

  /** When every stored folio of the day has the form `Folio.Crear`
      writes, the next number is above all of theirs, and exactly one
      above the greatest. */
  lemma SiguienteSuperaExistentes(existentes: seq<string>, fecha: Fecha)
    requires forall i | 0 <= i < |existentes| && StartsWith(existentes[i], FormatoFecha(fecha))
               :: FolioDelDia(existentes[i], fecha)
    ensures forall i | 0 <= i < |existentes| && StartsWith(existentes[i], FormatoFecha(fecha))
              :: FolioDelDia(existentes[i], fecha) && Numero(existentes[i]) < SiguienteConsecutivo(existentes, fecha)
    ensures 1 <= SiguienteConsecutivo(existentes, fecha) <= 10000
  {
    var u := Ultimo(existentes, FormatoFecha(fecha));
    if u.Some? {
      var ultimo := u.value;
      var k :| 0 <= k < |existentes| && existentes[k] == ultimo;
      SiguienteTrasFolio(existentes, fecha, ultimo);
      forall i | 0 <= i < |existentes| && StartsWith(existentes[i], FormatoFecha(fecha))
        ensures Numero(existentes[i]) < SiguienteConsecutivo(existentes, fecha)
      {
        OrdenDeFolios(existentes[i], ultimo, fecha);
      }
    }
  }

  /** Uniqueness of the day's numbering: under the same hypothesis, a folio
      built from the next number is not among the stored ones. */
  lemma SiguienteFolioEsNuevo(existentes: seq<string>, fecha: Fecha)
    requires forall i | 0 <= i < |existentes| && StartsWith(existentes[i], FormatoFecha(fecha))
               :: FolioDelDia(existentes[i], fecha)
    requires Crear(SiguienteConsecutivo(existentes, fecha), fecha).Success?
    ensures Crear(SiguienteConsecutivo(existentes, fecha), fecha).value.valor !in existentes
  {
    var n := SiguienteConsecutivo(existentes, fecha);
    var x := Crear(n, fecha).value.valor;
    if x in existentes {
      var i :| 0 <= i < |existentes| && existentes[i] == x;
      assert StartsWith(x, FormatoFecha(fecha));
      SiguienteSuperaExistentes(existentes, fecha);
      assert false;
    }
  }

  /** Past number 9999 the rule hands out 10000, which `Folio.Crear`
      refuses. */
  lemma DespuesDe9999(fecha: Fecha)
    ensures var x := Crear(ConsecutivoMaximo, fecha).value.valor;
      && SiguienteConsecutivo([x], fecha) == 10000
      && Crear(SiguienteConsecutivo([x], fecha), fecha) == Failure(ConsecutivoFueraDeRango)
  {
    var x := Crear(ConsecutivoMaximo, fecha).value.valor;
    assert FolioDelDia(x, fecha);
    assert StartsWith(x, FormatoFecha(fecha));
    assert Ultimo([x], FormatoFecha(fecha)) == Some(x);
    SiguienteTrasFolio([x], fecha, x);
  }
}
