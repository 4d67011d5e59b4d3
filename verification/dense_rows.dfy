/** Turning the tokens of one line into a fixed-width row of values. The
    numeric conversion is a parameter: `parse` answers `None` where the
    source's floating-point parser throws. */
module DenseRows {
  import opened Wrappers

  /** Why a line could not become a row. */
  datatype FieldError =
    | MissingField(field: nat)   // the line has no token at this index
    | NotANumber(field: nat)     // the token at this index does not parse

  /** Field `f` is the first one of the `n` wanted that cannot be read, and
      `e` reports it with the right kind. */
  ghost predicate FirstBadField<V>(tokens: seq<string>, n: nat, parse: string -> Option<V>, e: FieldError)
  {
    var f := e.field;
    && f < n
    && (forall j :: 0 <= j < f ==> j < |tokens| && parse(tokens[j]).Some?)
    && (e.MissingField? <==> f >= |tokens|)
    && (e.NotANumber? ==> parse(tokens[f]).None?)
  }

  /** Reads fields 0 .. n-1 of a line in ascending order; extra tokens are
      ignored and the first field that is absent or unparsable aborts. */
  function ParseFields<V>(tokens: seq<string>, n: nat, parse: string -> Option<V>): (r: Result<seq<V>, FieldError>)
    ensures r.Success? <==> n <= |tokens| && forall j :: 0 <= j < n ==> parse(tokens[j]).Some?
    ensures r.Success? ==> n <= |tokens| && |r.value| == n
    ensures r.Success? ==> forall j :: 0 <= j < n ==> parse(tokens[j]) == Some(r.value[j])
    ensures r.Failure? ==> FirstBadField(tokens, n, parse, r.error)
    decreases n
  {
    if n == 0 then Success([])
    else
      match ParseFields(tokens, n - 1, parse)
      case Failure(e) => Failure(e)
      case Success(vs) =>
        if n - 1 >= |tokens| then Failure(MissingField(n - 1))
        else match parse(tokens[n - 1])
          case None => Failure(NotANumber(n - 1))
          case Some(v) => Success(vs + [v])
  }
}
