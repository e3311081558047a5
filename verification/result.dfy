/** The domain's own `Result` / `Result<T>` classes: a success flag, an error
    string (which may be null) and, for `Result<T>`, a value. The non-generic
    `Result` is `Result<T>` with no value. */
module Results {
  import opened Outcomes

  /** `Value` is `None` where the source stores `default(T)`. */
  datatype Res<T> = Res(IsSuccess: bool, Error: Option<string>, Value: Option<T>)

  predicate IsFailure<T>(r: Res<T>) {
    !r.IsSuccess
  }

  /** The protected constructor. `None` stands for the
      `InvalidOperationException` it throws: a success may not carry an
      error other than the empty string, and a failure may not carry the
      empty string (a null error is accepted). */
  function Construct<T>(isSuccess: bool, error: Option<string>, value: Option<T>): (r: Option<Res<T>>)
    ensures r.Some? <==> (isSuccess ==> error == Some("")) && (!isSuccess ==> error != Some(""))
    ensures r.Some? ==> r.value.IsSuccess == isSuccess && r.value.Error == error && r.value.Value == value
  {
    if isSuccess && error != Some("") then None
    else if !isSuccess && error == Some("") then None
    else Some(Res(isSuccess, error, value))
  }

  /** Every result the constructor lets through is well formed: it is a
      success exactly when its error is the empty string. */
  predicate WellFormed<T>(r: Res<T>) {
    r.IsSuccess <==> r.Error == Some("")
  }

  lemma ConstructedIsWellFormed<T>(isSuccess: bool, error: Option<string>, value: Option<T>)
    requires Construct(isSuccess, error, value).Some?
    ensures WellFormed(Construct(isSuccess, error, value).value)
    ensures IsFailure(Construct(isSuccess, error, value).value) <==> !isSuccess
  {
  }

  /** `Result.Success()`: never throws, carries the empty error. */
  function Success(): (r: Option<Res<()>>)
    ensures r.Some? && r.value.IsSuccess && r.value.Error == Some("")
  {
    Construct(true, Some(""), None)
  }

  /** `Result.Failure(error)`: throws exactly for the empty string. */
  function Failure(error: Option<string>): (r: Option<Res<()>>)
    ensures r.Some? <==> error != Some("")
    ensures r.Some? ==> IsFailure(r.value) && r.value.Error == error
  {
    Construct(false, error, None)
  }

  /** `Result.Success<T>(value)`: carries the value. */
  function SuccessOf<T>(value: T): (r: Option<Res<T>>)
    ensures r.Some? && r.value.IsSuccess && r.value.Value == Some(value)
  {
    Construct(true, Some(""), Some(value))
  }

  /** `Result.Failure<T>(error)`: carries `default(T)`. */
  function FailureOf<T>(error: Option<string>): (r: Option<Res<T>>)
    ensures r.Some? <==> error != Some("")
    ensures r.Some? ==> IsFailure(r.value) && r.value.Error == error && r.value.Value.None?
  {
    Construct(false, error, None)
  }
}
