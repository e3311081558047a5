/** The two pure layout helpers of the ticket printer. A C# string is a
    sequence of UTF-16 code units, and both helpers measure and cut in those
    units, so they work on code-unit sequences: the line for a text `s` is
    laid out from `Utf16(s)`. */
module TicketLayout {
  import opened Outcomes
  import opened Text

  /** The contents of a C# string. */
  type Unidades = seq<CodeUnit>

  /** `Centrar(texto, ancho)`. `None` stands for the exception a negative
      width raises (`new string(' ', n)` and `Substring(0, n)` both reject
      it). The text is padded on the left only. */
  function Centrar(texto: Option<Unidades>, ancho: int): (r: Option<Unidades>)
    ensures r.None? <==> ancho < 0
    ensures r.Some? ==> |r.value| <= ancho
    ensures r.Some? && (texto.None? || texto.value == []) ==> r.value == EspaciosUtf16(ancho)
    ensures r.Some? && texto.Some? && texto.value != [] && |texto.value| >= ancho
            ==> r.value == texto.value[..ancho]
    ensures r.Some? && texto.Some? && texto.value != [] && |texto.value| < ancho ==>
      var izquierda := |r.value| - |texto.value|;
      var derecha := ancho - |r.value|;
      && izquierda >= 0
      && r.value[izquierda..] == texto.value
      && (forall i | 0 <= i < izquierda :: r.value[i] == Espacio)
      && izquierda <= derecha <= izquierda + 1
  {
    if ancho < 0 then None
    else if texto.None? || texto.value == [] then Some(EspaciosUtf16(ancho))
    else if |texto.value| >= ancho then Some(texto.value[..ancho])
    else
      var espaciosIzquierda := (ancho - |texto.value|) / 2;
      var r := EspaciosUtf16(espaciosIzquierda) + texto.value;
      assert r[espaciosIzquierda..] == texto.value;
      Some(r)
  }

  /** `AlinearDerecha(etiqueta, valor, ancho)`: the label on the left, the
      value flush right. */
  function AlinearDerecha(etiqueta: Unidades, valor: Unidades, ancho: int): (r: Unidades)
    ensures |etiqueta| + |valor| >= ancho ==> r == etiqueta + valor
    ensures |r| == if |etiqueta| + |valor| >= ancho then |etiqueta| + |valor| else ancho
    ensures r[..|etiqueta|] == etiqueta && r[|r| - |valor|..] == valor
    ensures forall i | |etiqueta| <= i < |r| - |valor| :: r[i] == Espacio
  {
    var longitud := |etiqueta| + |valor|;
    if longitud >= ancho then
      var r := etiqueta + valor;
      assert r[..|etiqueta|] == etiqueta && r[|r| - |valor|..] == valor;
      r
    else
      var r := etiqueta + EspaciosUtf16(ancho - longitud) + valor;
      assert r[..|etiqueta|] == etiqueta && r[|r| - |valor|..] == valor;
      r
  }

  /** A character outside the BMP takes two of the width's units: a width
      of one keeps only the high surrogate of U+1F600, and a label of that
      character needs one space less than its character count suggests. */
  lemma AnchoEnUnidades()
    ensures Utf16("\U{1F600}") == [0xD83D, 0xDE00]
    ensures Centrar(Some(Utf16("\U{1F600}")), 1) == Some([0xD83D])
    ensures |AlinearDerecha(Utf16("\U{1F600}"), Utf16("9"), 4)| == 4
    ensures AlinearDerecha(Utf16("\U{1F600}"), Utf16("9"), 4)[2] == Espacio
  {
    var e := "\U{1F600}";
    assert e[1..] == [];
    assert Utf16(e) == [0xD83D, 0xDE00];
    assert Utf16(e)[..1] == [0xD83D];
    var n := "9";
    assert n[1..] == [];
    assert Utf16(n) == [0x39];
  }
}
