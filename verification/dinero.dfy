/** `Dinero`: an amount of a currency. Every instance is rounded to cents by
    `Math.Round`'s default banker's rounding. Arithmetic and comparisons
    across currencies throw `InvalidOperationException`, as does a
    subtraction that would go negative; both are modelled as a `Failure`. */
module Dineros {
  import opened Outcomes
  import opened Text
  import opened Redondeo

  datatype Dinero = Dinero(monto: real, moneda: string)

  datatype DineroError =
    | MontoNegativo
    | MonedaRequerida
    | MonedasDistintas
    | ResultadoNegativo

  const MonedaPorDefecto: string := "MXN"

  /** The private constructor: the only way an instance is built. */
  function Nuevo(monto: real, moneda: string): (d: Dinero)
    ensures EsDeCentavos(d.monto) && -0.005 <= d.monto - monto <= 0.005 && d.moneda == moneda
    ensures EsDeCentavos(monto) ==> d.monto == monto
    ensures (d.monto - monto == 0.005 || d.monto - monto == -0.005) ==> (d.monto * 100.0).Floor % 2 == 0
  {
    if EsDeCentavos(monto) then CentavosFijos(monto); Dinero(RedondearPar2(monto), moneda)
    else Dinero(RedondearPar2(monto), moneda)
  }

  /** `Dinero.Crear`: the currency is kept as given. */
  function Crear(monto: real, moneda: Option<string>): (r: Result<Dinero, DineroError>)
    ensures r.Success? <==> monto >= 0.0 && !IsNullOrWhiteSpace(moneda)
    ensures monto < 0.0 ==> r == Failure(MontoNegativo)
    ensures r.Success? ==> r.value.moneda == moneda.value && r.value.monto >= 0.0
    ensures r.Success? ==> EsDeCentavos(r.value.monto) && -0.005 <= r.value.monto - monto <= 0.005
    ensures r.Success? && (r.value.monto - monto == 0.005 || r.value.monto - monto == -0.005)
            ==> (r.value.monto * 100.0).Floor % 2 == 0
  {
    if monto < 0.0 then Failure(MontoNegativo)
    else if IsNullOrWhiteSpace(moneda) then Failure(MonedaRequerida)
    else Success(Nuevo(monto, moneda.value))
  }

  function Cero(): (d: Dinero)
    ensures d == Dinero(0.0, MonedaPorDefecto)
  {
    assert (0.0 * 100.0).Floor == 0;
    Nuevo(0.0, MonedaPorDefecto)
  }

  /** `+`. */
  function Sumar(a: Dinero, b: Dinero): (r: Result<Dinero, DineroError>)
    ensures r.Success? <==> a.moneda == b.moneda
    ensures r.Failure? ==> r.error == MonedasDistintas
    ensures r.Success? ==> r.value.moneda == a.moneda
    ensures r.Success? && EsDeCentavos(a.monto) && EsDeCentavos(b.monto) ==> r.value.monto == a.monto + b.monto
  {
    if a.moneda != b.moneda then Failure(MonedasDistintas)
    else
      if EsDeCentavos(a.monto) && EsDeCentavos(b.monto) then
        CentavosCerrados(a.monto, b.monto);
        Success(Nuevo(a.monto + b.monto, a.moneda))
      else Success(Nuevo(a.monto + b.monto, a.moneda))
  }

  /** `-`: throws when the result would be negative. */
  function Restar(a: Dinero, b: Dinero): (r: Result<Dinero, DineroError>)
    ensures r.Success? <==> a.moneda == b.moneda && a.monto >= b.monto
    ensures a.moneda != b.moneda ==> r == Failure(MonedasDistintas)
    ensures a.moneda == b.moneda && a.monto < b.monto ==> r == Failure(ResultadoNegativo)
    ensures r.Success? ==> r.value.moneda == a.moneda && r.value.monto >= 0.0
    ensures r.Success? && EsDeCentavos(a.monto) && EsDeCentavos(b.monto) ==> r.value.monto == a.monto - b.monto
  {
    if a.moneda != b.moneda then Failure(MonedasDistintas)
    else if a.monto - b.monto < 0.0 then Failure(ResultadoNegativo)
    else
      if EsDeCentavos(a.monto) && EsDeCentavos(b.monto) then
        CentavosCerrados(a.monto, b.monto);
        Success(Nuevo(a.monto - b.monto, a.moneda))
      else Success(Nuevo(a.monto - b.monto, a.moneda))
  }

  /** `*` by a decimal (the `int` overload is the same with an integral
      factor): no currency to check and no sign check. */
  function Multiplicar(d: Dinero, multiplicador: real): (r: Dinero)
    ensures r.moneda == d.moneda && EsDeCentavos(r.monto)
    ensures -0.005 <= r.monto - d.monto * multiplicador <= 0.005
    ensures (r.monto - d.monto * multiplicador == 0.005 || r.monto - d.monto * multiplicador == -0.005)
            ==> (r.monto * 100.0).Floor % 2 == 0
  {
    Nuevo(d.monto * multiplicador, d.moneda)
  }

  /** Subtracting what was added gives back the original amount. */
  lemma RestarDeshaceSumar(a: Dinero, b: Dinero)
    requires a.moneda == b.moneda && EsDeCentavos(a.monto) && EsDeCentavos(b.monto) && a.monto >= 0.0
    ensures Sumar(a, b).Success? && Restar(Sumar(a, b).value, b) == Success(a)
  {
    var s := Sumar(a, b).value;
    CentavosCerrados(a.monto, b.monto);
    CentavosCerrados(s.monto, b.monto);
    assert s.monto - b.monto == a.monto;
    var r := Restar(s, b);
    assert r.Success?;
    assert r.value.monto == a.monto && r.value.moneda == a.moneda;
  }

  /** Sums of amounts in one currency do not depend on the order. */
  lemma SumarConmutativa(a: Dinero, b: Dinero)
    ensures Sumar(a, b) == Sumar(b, a)
  {
  }

  /** A multiplication by a negative factor yields a negative amount,
      which `Crear` would have refused. */
  lemma MultiplicarSinControlDeSigno()
    ensures Crear(5.0, Some(MonedaPorDefecto)).Success?
    ensures Multiplicar(Crear(5.0, Some(MonedaPorDefecto)).value, -1.0).monto == -5.0
  {
    assert !IsWhiteSpace(MonedaPorDefecto[0]);
    assert (5.0 * 100.0).Floor == 500;
    assert (-5.0 * 100.0).Floor == -500;
  }

  // ---------------------------------------------------------------------
  // Comparisons and equality
  // ---------------------------------------------------------------------

  function MayorQue(a: Dinero, b: Dinero): (r: Result<bool, DineroError>)
    ensures r.Success? <==> a.moneda == b.moneda
    ensures r.Failure? ==> r.error == MonedasDistintas
    ensures r.Success? ==> (r.value <==> a.monto > b.monto)
  {
    if a.moneda != b.moneda then Failure(MonedasDistintas) else Success(a.monto > b.monto)
  }

  function MenorQue(a: Dinero, b: Dinero): (r: Result<bool, DineroError>)
    ensures r.Success? <==> a.moneda == b.moneda
    ensures r.Failure? ==> r.error == MonedasDistintas
    ensures r.Success? ==> (r.value <==> a.monto < b.monto)
  {
    if a.moneda != b.moneda then Failure(MonedasDistintas) else Success(a.monto < b.monto)
  }

  function MayorOIgual(a: Dinero, b: Dinero): (r: Result<bool, DineroError>)
    ensures r.Success? <==> a.moneda == b.moneda
    ensures r.Failure? ==> r.error == MonedasDistintas
    ensures r.Success? ==> (r.value <==> a.monto >= b.monto)
  {
    if a.moneda != b.moneda then Failure(MonedasDistintas) else Success(a.monto >= b.monto)
  }

  function MenorOIgual(a: Dinero, b: Dinero): (r: Result<bool, DineroError>)
    ensures r.Success? <==> a.moneda == b.moneda
    ensures r.Failure? ==> r.error == MonedasDistintas
    ensures r.Success? ==> (r.value <==> a.monto <= b.monto)
  {
    if a.moneda != b.moneda then Failure(MonedasDistintas) else Success(a.monto <= b.monto)
  }

  /** `CompareTo`: a null argument sorts first. */
  function CompararCon(a: Dinero, otro: Option<Dinero>): (r: Result<int, DineroError>)
    ensures otro.None? ==> r == Success(1)
    ensures otro.Some? ==> (r.Success? <==> a.moneda == otro.value.moneda)
    ensures r.Success? ==> -1 <= r.value <= 1
  {
    if otro.None? then Success(1)
    else if a.moneda != otro.value.moneda then Failure(MonedasDistintas)
    else if a.monto < otro.value.monto then Success(-1)
    else if a.monto > otro.value.monto then Success(1)
    else Success(0)
  }

  /** `CompareTo` agrees with the comparison operators and is antisymmetric. */
  lemma CompararCoherente(a: Dinero, b: Dinero)
    requires a.moneda == b.moneda
    ensures CompararCon(a, Some(b)).value > 0 <==> MayorQue(a, b).value
    ensures CompararCon(a, Some(b)).value < 0 <==> MenorQue(a, b).value
    ensures CompararCon(a, Some(b)).value == 0 <==> MayorOIgual(a, b).value && MenorOIgual(a, b).value
    ensures CompararCon(a, Some(b)).value == -CompararCon(b, Some(a)).value
  {
  }

  /** `==` on possibly-null operands: two nulls are equal, a null and an
      instance are not, and two instances are equal when amount and
      currency are. */
  function Iguales(a: Option<Dinero>, b: Option<Dinero>): (r: bool)
    ensures r <==> a == b
  {
    if a.None? && b.None? then true
    else if a.None? || b.None? then false
    else a.value.monto == b.value.monto && a.value.moneda == b.value.moneda
  }

  /** Amounts that round to the same cent are equal: 1.004 and 1.00 MXN
      make the same `Dinero`. */
  lemma RedondeoIguala()
    ensures Crear(1.004, Some(MonedaPorDefecto)) == Crear(1.0, Some(MonedaPorDefecto))
  {
    assert !IsWhiteSpace(MonedaPorDefecto[0]);
    assert (1.0 * 100.0).Floor == 100;
    AlParUnico(100.4, 100);
  }
}
