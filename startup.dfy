/** Mode selection and the startup checks performed before any input line is read. */
module Startup {
  import opened Wrappers

  /** The parsed command line. `reduce` is the seed text of `--reduce`, `expr` the
      positional expression source; the boolean flags default to false. */
  datatype Args = Args(
    reduce: Option<string>,
    filter: bool,
    stringInput: bool,
    stringOutput: bool,
    expr: Option<string>)

  /** The streaming semantics chosen for the whole run. */
  datatype Mode = Map | Filter | Reduce

  /** The configuration errors raised before the stream is read. */
  datatype StartupError = BothReduceAndFilter | NoFunction

  /** JavaScript truthiness of an optional string argument: absent and empty are falsy. */
  predicate IsSet(o: Option<string>)
  {
    o.Some? && o.value != ""
  }

  /** Chooses the mode from the `reduce` and `filter` flags. It fails exactly when
      both are set; otherwise each mode is chosen under exactly one flag combination,
      so every success is one of the three modes. */
  function GetMethod(a: Args): (r: Result<Mode, StartupError>)
    ensures r.Failure? <==> IsSet(a.reduce) && a.filter
    ensures r.Failure? ==> r.error == BothReduceAndFilter
    ensures r == Success(Reduce) <==> IsSet(a.reduce) && !a.filter
    ensures r == Success(Filter) <==> a.filter && !IsSet(a.reduce)
    ensures r == Success(Map) <==> !a.filter && !IsSet(a.reduce)
  {
    if IsSet(a.reduce) && a.filter then Failure(BothReduceAndFilter)
    else if IsSet(a.reduce) then Success(Reduce)
    else if a.filter then Success(Filter)
    else Success(Map)
  }

  /** Every check done before the stream opens: the mode first, then the presence of
      the expression. The reduce mode always comes with a seed text. */
  function Check(a: Args): (r: Result<Mode, StartupError>)
    ensures r.Failure? <==> (IsSet(a.reduce) && a.filter) || !IsSet(a.expr)
    ensures IsSet(a.reduce) && a.filter ==> r == Failure(BothReduceAndFilter)
    ensures !(IsSet(a.reduce) && a.filter) && !IsSet(a.expr) ==> r == Failure(NoFunction)
    ensures r.Success? ==> GetMethod(a) == r
    ensures r == Success(Reduce) ==> IsSet(a.reduce)
  {
    match GetMethod(a)
    case Failure(e) => Failure(e)
    case Success(m) => if !IsSet(a.expr) then Failure(NoFunction) else Success(m)
  }

  /** An empty seed is falsy, so `--reduce ""` selects map (or filter) mode, not reduce. */
  lemma EmptySeedIsNotReduce(a: Args)
    requires a.reduce == Some("")
    ensures GetMethod(a) == if a.filter then Success(Filter) else Success(Map)
  {
  }
}
