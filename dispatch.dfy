/** The line dispatcher: a two-event state machine (a line arrives, the stream
    closes) holding the reduce accumulator and the lines printed so far, proved
    against the map, filter and fold semantics of the whole input. */
module Dispatch {
  import opened Wrappers
  import opened Startup
  import opened Codec
  import Streams

  /** The decoded values of the lines read so far, in input order. */
  function Decoded<V>(h: Host<V>, stringInput: bool, lines: seq<string>): seq<V>
  {
    Streams.Map(DecodeFn(h, stringInput), lines)
  }

  /** The initial accumulator: the seed text of `--reduce`, always JSON-decoded. */
  function Seed<V>(a: Args, h: Host<V>): V
    requires a.reduce.Some?
  {
    h.parse(a.reduce.value)
  }

  /** The accumulator after the given lines: the fold of the function over them. */
  function Total<V>(a: Args, h: Host<V>, lines: seq<string>): V
    requires a.reduce.Some?
  {
    Streams.FoldLeft(h.combine, Seed(a, h), Decoded(h, a.stringInput, lines))
  }

  /** What has been printed after the given lines, and after the close when `closed`. */
  function Emitted<V>(m: Mode, a: Args, h: Host<V>, lines: seq<string>, closed: bool): seq<string>
    requires m == Reduce ==> a.reduce.Some?
  {
    match m
    case Map => Streams.Map(MappedFn(h, a.stringOutput), Decoded(h, a.stringInput, lines))
    case Filter =>
      Streams.Map(EncodeFn(h, a.stringOutput), Streams.Filter(KeepFn(h), Decoded(h, a.stringInput, lines)))
    case Reduce => if closed then [Encode(h, a.stringOutput, Total(a, h, lines))] else []
  }

  /** The whole run: the startup checks, then every line, then the close. */
  function Program<V>(a: Args, h: Host<V>, lines: seq<string>): Result<seq<string>, StartupError>
  {
    match Check(a)
    case Failure(e) => Failure(e)
    case Success(m) => Success(Emitted(m, a, h, lines, true))
  }

  /** The state of a run once the startup checks have passed. */
  class Dispatcher<V> {
    const host: Host<V>
    const args: Args
    const mode: Mode
    var acc: Option<V>
    var output: seq<string>
    var closed: bool
    ghost var seen: seq<string>

    /** The mode is the one the startup checks chose; an accumulator exists exactly
        in reduce mode and is the fold over the lines seen; the printed lines are
        those the mode's semantics gives for the lines seen. */
    ghost predicate Valid()
      reads this
    {
      Check(args) == Success(mode) &&
      (acc.Some? <==> mode == Reduce) &&
      (mode == Reduce ==> acc.value == Total(args, host, seen)) &&
      output == Emitted(mode, args, host, seen, closed)
    }

    /** The state when the stream opens; in reduce mode the accumulator is the seed. */
    constructor (args: Args, host: Host<V>)
      requires Check(args).Success?
      ensures Valid()
      ensures this.args == args && this.host == host && mode == Check(args).value
      ensures seen == [] && output == [] && !closed
      ensures acc == if mode == Reduce then Some(Seed(args, host)) else None
    {
      this.args := args;
      this.host := host;
      mode := Check(args).value;
      acc := if Check(args).value == Reduce then Some(Seed(args, host)) else None;
      output := [];
      closed := false;
      seen := [];
    }

    /** Prints exactly one line: the encoding of `v`. */
    method HandleOutput(v: V)
      modifies this`output
      ensures output == old(output) + [Encode(host, args.stringOutput, v)]
    {
      output := output + [Encode(host, args.stringOutput, v)];
    }

    /** One input line: map prints the encoded result of the function, filter
        prints the original value when the function's result is truthy, and
        reduce replaces the accumulator by the function of it and the value. */
    method OnLine(line: string)
      requires Valid() && !closed
      modifies this
      ensures Valid() && !closed && seen == old(seen) + [line]
      ensures var v := Decode(host, args.stringInput, line);
        acc == (if mode == Reduce then Some(host.combine(old(acc).value, v)) else None) &&
        output == old(output) + match mode
          case Map => [Encode(host, args.stringOutput, host.apply(v))]
          case Filter => if host.truthy(host.apply(v)) then [Encode(host, args.stringOutput, v)] else []
          case Reduce => []
    {
      var v := Decode(host, args.stringInput, line);
      Streams.MapSnoc(DecodeFn(host, args.stringInput), seen, line);
      ghost var vs := Decoded(host, args.stringInput, seen);
      match mode {
        case Reduce =>
          acc := Some(host.combine(acc.value, v));
          Streams.FoldLeftSnoc(host.combine, Seed(args, host), vs, v);
        case Filter =>
          if host.truthy(host.apply(v)) {
            HandleOutput(v);
          }
          Streams.FilterSnoc(KeepFn(host), vs, v);
          Streams.MapSnoc(EncodeFn(host, args.stringOutput), Streams.Filter(KeepFn(host), vs), v);
        case Map =>
          HandleOutput(host.apply(v));
          Streams.MapSnoc(MappedFn(host, args.stringOutput), vs, v);
      }
      seen := seen + [line];
    }

    /** End of input: reduce prints the accumulator once; map and filter print nothing. */
    method OnClose()
      requires Valid() && !closed
      modifies this
      ensures Valid() && closed && seen == old(seen) && acc == old(acc)
      ensures output == old(output) + if mode == Reduce then [Encode(host, args.stringOutput, acc.value)] else []
    {
      if mode == Reduce {
        HandleOutput(acc.value);
      }
      closed := true;
    }
  }

  /** Runs the tool on a whole input: a configuration error stops it before any line
      is handled; otherwise every line is fed to the dispatcher in order, then the
      close. What it prints is the semantics of the chosen mode. */
  method Run<V>(a: Args, h: Host<V>, lines: seq<string>) returns (r: Result<seq<string>, StartupError>)
    ensures r == Program(a, h, lines)
  {
    var checked := Check(a);
    if checked.Failure? {
      return Failure(checked.error);
    }
    var d := new Dispatcher(a, h);
    var i := 0;
    while i < |lines|
      invariant 0 <= i <= |lines|
      invariant d.Valid() && !d.closed
      invariant d.args == a && d.host == h && d.mode == checked.value
      invariant d.seen == lines[..i]
    {
      assert lines[..i + 1] == lines[..i] + [lines[i]];
      d.OnLine(lines[i]);
      i := i + 1;
    }
    d.OnClose();
    assert lines[..|lines|] == lines;
    assert d.output == Emitted(checked.value, a, h, lines, true);
    return Success(d.output);
  }

  /** A configuration error is raised whatever the input: the run fails exactly when
      the startup checks fail, with the both-flags error taking precedence. */
  lemma ConfigErrorIgnoresInput<V>(a: Args, h: Host<V>, lines: seq<string>)
    ensures Program(a, h, lines).Failure? <==> Check(a).Failure?
    ensures IsSet(a.reduce) && a.filter ==> Program(a, h, lines) == Failure(BothReduceAndFilter)
    ensures !(IsSet(a.reduce) && a.filter) && !IsSet(a.expr) ==> Program(a, h, lines) == Failure(NoFunction)
  {
  }

  /** Map mode prints one line per input line, in input order, each the encoding of
      the function applied to the decoded line. */
  lemma MapOutput<V>(a: Args, h: Host<V>, lines: seq<string>)
    requires Check(a) == Success(Map)
    ensures Program(a, h, lines).Success?
    ensures var out := Program(a, h, lines).value;
      |out| == |lines| &&
      forall i :: 0 <= i < |lines| ==>
        out[i] == Encode(h, a.stringOutput, h.apply(Decode(h, a.stringInput, lines[i])))
  {
  }

  /** Filter mode prints the original decoded values, re-encoded, of exactly those
      lines whose value makes the function's result truthy, in input order. */
  lemma FilterOutput<V>(a: Args, h: Host<V>, lines: seq<string>)
    requires Check(a) == Success(Filter)
    ensures Program(a, h, lines).Success?
    ensures var out, ks := Program(a, h, lines).value, Streams.Kept(KeepFn(h), Decoded(h, a.stringInput, lines));
      |out| == |ks| <= |lines| &&
      (forall k :: 0 <= k < |ks| ==>
        ks[k] < |lines| && out[k] == Encode(h, a.stringOutput, Decode(h, a.stringInput, lines[ks[k]]))) &&
      (forall k, l :: 0 <= k < l < |ks| ==> ks[k] < ks[l]) &&
      (forall i :: 0 <= i < |lines| ==>
        (i in ks <==> h.truthy(h.apply(Decode(h, a.stringInput, lines[i])))))
  {
    var vs := Decoded(h, a.stringInput, lines);
    Streams.FilterIsKeptSubsequence(KeepFn(h), vs);
  }

  /** Reduce mode prints exactly one line, at the close: the encoded accumulator. */
  lemma ReduceOutput<V>(a: Args, h: Host<V>, lines: seq<string>)
    requires Check(a) == Success(Reduce)
    ensures a.reduce.Some? && Program(a, h, lines) == Success([Encode(h, a.stringOutput, Total(a, h, lines))])
    ensures Emitted(Reduce, a, h, lines, false) == []
  {
  }

  /** The accumulator starts at the decoded seed and each line replaces it by the
      function of the previous accumulator and the decoded line, so after lines
      l1..ln it is fn(...fn(fn(seed, d(l1)), d(l2))..., d(ln)). */
  lemma {:induction false} TotalSteps<V>(a: Args, h: Host<V>, lines: seq<string>, line: string)
    requires a.reduce.Some?
    ensures Total(a, h, []) == h.parse(a.reduce.value)
    ensures Total(a, h, lines + [line]) == h.combine(Total(a, h, lines), Decode(h, a.stringInput, line))
  {
    Streams.MapSnoc(DecodeFn(h, a.stringInput), lines, line);
    Streams.FoldLeftSnoc(h.combine, Seed(a, h), Decoded(h, a.stringInput, lines), Decode(h, a.stringInput, line));
  }

  /** Closing prints nothing in map and filter modes and one line in reduce mode. */
  lemma CloseOutput<V>(m: Mode, a: Args, h: Host<V>, lines: seq<string>)
    requires m == Reduce ==> a.reduce.Some?
    ensures m != Reduce ==> Emitted(m, a, h, lines, true) == Emitted(m, a, h, lines, false)
    ensures m == Reduce ==> Emitted(m, a, h, lines, true) == Emitted(m, a, h, lines, false) + [Encode(h, a.stringOutput, Total(a, h, lines))]
  {
  }

  /** With string input and output and the identity function, in map mode every line
      comes out exactly as it went in, provided the host prints a string value as
      that string. */
  lemma {:induction false} RawIdentity<V>(a: Args, h: Host<V>, lines: seq<string>)
    requires Check(a) == Success(Map) && a.stringInput && a.stringOutput
    requires forall s :: h.show(h.ofString(s)) == s
    requires forall v :: h.apply(v) == v
    ensures Program(a, h, lines) == Success(lines)
  {
    var out := Program(a, h, lines).value;
    assert |out| == |lines|;
    forall i | 0 <= i < |lines| ensures out[i] == lines[i] {
      assert h.apply(h.ofString(lines[i])) == h.ofString(lines[i]);
    }
    assert out == lines;
  }

  /** With string input and output, one line handled in map mode by an identity
      function prints exactly that line, provided the host prints the line's string
      value as that string. */
  lemma {:induction false} RawStep<V>(a: Args, h: Host<V>, lines: seq<string>, line: string)
    requires a.stringInput && a.stringOutput
    requires h.show(h.ofString(line)) == line
    requires h.apply(h.ofString(line)) == h.ofString(line)
    ensures Emitted(Map, a, h, lines + [line], false) == Emitted(Map, a, h, lines, false) + [line]
  {
    Streams.MapSnoc(DecodeFn(h, true), lines, line);
    Streams.MapSnoc(MappedFn(h, true), Decoded(h, true, lines), h.ofString(line));
  }

  /** A reduce run that sums numbers: seed "0" and lines 1, 2, 3 print 6. */
  lemma SumExample(a: Args, h: Host<int>)
    requires Check(a) == Success(Reduce) && a.reduce == Some("0") && !a.stringInput
    requires h.parse("0") == 0 && h.parse("1") == 1 && h.parse("2") == 2 && h.parse("3") == 3
    requires forall x, y :: h.combine(x, y) == x + y
    ensures Program(a, h, ["1", "2", "3"]) == Success([Encode(h, a.stringOutput, 6)])
  {
    var vs := Decoded(h, false, ["1", "2", "3"]);
    assert vs[0] == 1 && vs[1] == 2 && vs[2] == 3;
    assert vs == [1, 2, 3];
    var f := h.combine;
    assert [1, 2, 3][1..] == [2, 3] && [2, 3][1..] == [3] && [3][1..] == [];
    calc {
      Streams.FoldLeft(f, 0, [1, 2, 3]);
      Streams.FoldLeft(f, 1, [2, 3]);
      Streams.FoldLeft(f, 3, [3]);
      Streams.FoldLeft(f, 6, []);
    }
  }

  /** A filter run on evenness: lines 1, 2, 3, 4 print 2 and 4. */
  lemma EvenExample(a: Args, h: Host<int>)
    requires Check(a) == Success(Filter) && !a.stringInput && !a.stringOutput
    requires h.parse("1") == 1 && h.parse("2") == 2 && h.parse("3") == 3 && h.parse("4") == 4
    requires forall x :: h.truthy(h.apply(x)) == (x % 2 == 0)
    ensures Program(a, h, ["1", "2", "3", "4"]) == Success([h.stringify(2), h.stringify(4)])
  {
    var vs := Decoded(h, false, ["1", "2", "3", "4"]);
    assert vs[0] == 1 && vs[1] == 2 && vs[2] == 3 && vs[3] == 4;
    assert vs == [1, 2, 3, 4];
    var p := KeepFn(h);
    assert !p(1) && p(2) && !p(3) && p(4) by {
      assert h.truthy(h.apply(1)) == (1 % 2 == 0);
      assert h.truthy(h.apply(2)) == (2 % 2 == 0);
      assert h.truthy(h.apply(3)) == (3 % 2 == 0);
      assert h.truthy(h.apply(4)) == (4 % 2 == 0);
    }
    FilterFour(p, 1, 2, 3, 4);
    var out := Program(a, h, ["1", "2", "3", "4"]).value;
    assert out == Streams.Map(EncodeFn(h, false), [2, 4]);
    assert |out| == 2 && out[0] == h.stringify(2) && out[1] == h.stringify(4);
    assert out == [h.stringify(2), h.stringify(4)];
  }

  /** Filtering four elements of which only the second and fourth satisfy `p`. */
  lemma FilterFour<A>(p: A -> bool, w: A, x: A, y: A, z: A)
    requires !p(w) && p(x) && !p(y) && p(z)
    ensures Streams.Filter(p, [w, x, y, z]) == [x, z]
  {
    var s := [w, x, y, z];
    assert s[1..] == [x, y, z] && s[1..][1..] == [y, z] && s[1..][1..][1..] == [z] && [z][1..] == [];
    assert Streams.Filter(p, []) == [];
    assert Streams.Filter(p, [z]) == [z] + Streams.Filter(p, []);
    assert Streams.Filter(p, [y, z]) == Streams.Filter(p, [z]);
    assert Streams.Filter(p, [x, y, z]) == [x] + Streams.Filter(p, [y, z]);
    assert Streams.Filter(p, s) == Streams.Filter(p, [x, y, z]);
  }

  /** A map run that doubles numbers: lines 1, 2, 3 print 2, 4, 6. */
  lemma DoubleExample(a: Args, h: Host<int>)
    requires Check(a) == Success(Map) && !a.stringInput && !a.stringOutput
    requires h.parse("1") == 1 && h.parse("2") == 2 && h.parse("3") == 3
    requires forall x :: h.apply(x) == 2 * x
    ensures Program(a, h, ["1", "2", "3"]) == Success([h.stringify(2), h.stringify(4), h.stringify(6)])
  {
    var vs := Decoded(h, false, ["1", "2", "3"]);
    assert vs[0] == 1 && vs[1] == 2 && vs[2] == 3;
    var out := Program(a, h, ["1", "2", "3"]).value;
    assert |out| == 3 && out[0] == h.stringify(2) && out[1] == h.stringify(4) && out[2] == h.stringify(6);
    assert out == [h.stringify(2), h.stringify(4), h.stringify(6)];
  }
}
