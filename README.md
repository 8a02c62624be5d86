# nq: line-stream map, filter and reduce

`nq` is a command-line stream processor. It reads standard input line by line,
decodes each line (as JSON, or as the raw text with `--string-input`), and gives
the value to a user expression `fn`. It then does one of three things:

- **map** (the default): prints `fn(v)` for every line;
- **filter** (`--filter`): prints `v` itself when `fn(v)` is truthy;
- **reduce** (`--reduce <seed>`): folds `acc = fn(acc, v)` from the JSON-decoded
  seed, and prints `acc` once when input closes.

Output is JSON-encoded, or printed in its default string form with `--string-output`.

This project models the core of `index.js`:

- mode selection (`getMethod`);
- the startup checks;
- seeding of the reduce accumulator;
- `handleOutput`;
- the `line` and `close` handlers.

The modules are:

- `Wrappers` (`wrappers.dfy`): `Option` and `Result`.
- `Streams` (`streams.dfy`): the reference semantics. It has `Map`, an
  order-preserving `Filter`, `FoldLeft`, and `Kept`, the positions a filter keeps.
  It also has the lemmas that let these be computed one element at a time.
- `Startup` (`startup.dfy`): the parsed command line (`Args`), `Mode`,
  `GetMethod`, and `Check`, which runs every check made before the stream is read.
- `Codec` (`codec.dfy`): `Host`, a record of the collaborators the core treats as
  given, plus the line decoder and encoder built from them. The collaborators are
  JSON decode and encode, the default printed form of a value, a raw line as a
  string value, `fn` called with one and with two arguments, and the truthiness
  test.
- `Dispatch` (`dispatch.dfy`): the class `Dispatcher`, with the accumulator
  `acc`, the printed lines `output`, and the methods `OnLine` and `OnClose`. Its
  invariant `Valid()` ties that state to the reference semantics of the lines
  seen so far. The module also has `Run`, which drives a whole input through the
  class, and the lemmas about what a run prints.

JavaScript truthiness of the `--reduce` argument is modelled as it is in the code:
the argument counts as set only when it is present and non-empty. So
`--reduce ""` selects map mode, or filter mode if `--filter` is also given, and
it does not raise the "cannot specify both" error (`Startup.EmptySeedIsNotReduce`).
The `default:` branch of the `switch` cannot be reached: `Mode`
has exactly three values, and `GetMethod` succeeds only with one of them.

## Model

| member | source | states |
|---|---|---|
| Startup.GetMethod | index.js:38-46 | fails (both-flags error) exactly when `reduce` is truthy and `filter` is set; otherwise Reduce exactly when `reduce` is truthy, Filter exactly when only `filter` is set, Map exactly when neither is |
| Startup.Check | index.js:38-57 | startup fails exactly when both flags are set or the expression is missing or empty; the both-flags error takes precedence, and otherwise a missing expression gives the no-function error; success is `GetMethod`'s mode, and Reduce always comes with a seed text |
| Startup.EmptySeedIsNotReduce | index.js:39-45 | an empty `--reduce` string is falsy, so it selects Filter or Map, never Reduce and never the both-flags error |
| Startup.IsSet | index.js:39-55 | definition: JavaScript truthiness of an optional string argument, set exactly when present and non-empty, as used for `reduce` (lines 39, 43) and the expression (line 55) |
| Codec.Decode | index.js:49-79 | definition: a line's value is the raw line as a string value under string input (line 49), and its JSON decoding otherwise (line 79) |
| Codec.Encode | index.js:73-76 | definition: a value's output text is its default printed form under string output, and its JSON encoding otherwise |
| Streams.FoldLeft | index.js:82-84 | definition: the left fold `f(...f(f(z, s[0]), s[1])..., s[n-1])`, with the accumulator as the first argument as at line 83 |
| Dispatch.Seed | index.js:69-71 | definition: the initial accumulator is the JSON decoding of the `--reduce` text, whatever string input says |
| Dispatch.Decoded | index.js:78-79 | definition: the decoded values of the lines seen, one per line and in input order |
| Dispatch.Total | index.js:69-84 | definition: the value of `acc` after the lines seen, the left fold of `fn` from the seed over their decoded values |
| Codec.KeepFn | index.js:86 | definition: the filter test, the truthiness of `fn(v)` |
| Codec.MappedFn | index.js:89 | definition: map mode's output text for a value, the encoding of `fn(v)` |
| Dispatch.Emitted | index.js:78-98 | definition: the lines printed after a given input, before or after the close. Map prints the encoded `fn` results; filter prints the encoded truthy originals; reduce prints the encoded fold, and only once closed |
| Dispatch.Program | index.js:48-98 | definition: a whole run is the startup error when `Check` fails, and otherwise the closed-stream `Emitted` of the chosen mode |
| Dispatch.RawStep | index.js:73-90 | with string input and output and an identity `fn`, one more line in map mode appends exactly that line, given that the host prints that line's string value as that string |
| Streams.Map | index.js:88-90 | the mapped sequence has the input's length, and element i is `f` of input element i |
| Streams.Filter | index.js:85-87 | the filtered sequence is no longer than the input, and every element it keeps satisfies the predicate |
| Streams.Kept | index.js:85-87 | the kept positions are strictly increasing and in range; a position is kept exactly when the predicate holds there |
| Streams.MapSnoc | index.js:88-90 | mapping one more element appends exactly its image (streaming map) |
| Streams.FilterSnoc | index.js:85-87 | filtering one more element appends that element when the predicate holds, and nothing otherwise (streaming filter) |
| Streams.FoldLeftSnoc | index.js:82-84 | folding one more element applies `f` once more, to the previous total and that element (streaming fold) |
| Streams.FilterIsKeptSubsequence | index.js:85-87 | the filter's output is the input elements at the kept positions, in order: the original elements, not transformed ones |
| Dispatch.Dispatcher.constructor | index.js:68-71 | the empty run state: nothing seen, nothing printed, not closed; the accumulator is the JSON-decoded seed in reduce mode and absent otherwise |
| Dispatch.Dispatcher.HandleOutput | index.js:73-76 | appends exactly one output line, the value's printed form under string output and its JSON encoding otherwise |
| Dispatch.Dispatcher.OnLine | index.js:78-94 | decodes the line. Map appends the encoding of `fn(v)`. Filter appends the encoding of `v` when `fn(v)` is truthy and nothing otherwise. Reduce sets `acc` to `fn(acc, v)` and prints nothing. The invariant keeps the output equal to the mode's semantics of the lines seen |
| Dispatch.Dispatcher.OnClose | index.js:96-98 | in reduce mode appends the encoded accumulator once; map and filter append nothing; the invariant is kept |
| Dispatch.Run | index.js:48-98 | a whole run: a startup error returns before any line is handled; otherwise the lines are fed in order and then the close; the printed lines equal the reference semantics `Program` |
| Dispatch.ConfigErrorIgnoresInput | index.js:38-57 | the run fails exactly when the startup checks fail, whatever the input; both flags give the both-flags error for every input |
| Dispatch.MapOutput | index.js:88-90 | map mode prints one line per input line, in order; line i is the encoding of `fn` applied to decoded line i |
| Dispatch.FilterOutput | index.js:85-87 | filter mode prints, in input order, the re-encoded original value of each line whose `fn` result is truthy, and of no other line |
| Dispatch.ReduceOutput | index.js:96-98 | reduce mode prints exactly one line, the encoded fold result, and prints nothing before the close |
| Dispatch.TotalSteps | index.js:69-84 | the accumulator starts at the decoded seed; each line replaces it with `fn(acc, decode(line))` |
| Dispatch.CloseOutput | index.js:96-98 | closing adds nothing in map and filter modes, and exactly the encoded accumulator in reduce mode |
| Dispatch.RawIdentity | index.js:73-90 | with string input and output and an identity `fn`, map mode prints the input lines unchanged |
| Dispatch.SumExample | index.js:82-84 | with seed `0`, addition and lines 1, 2, 3, reduce mode prints the encoding of 6 |
| Dispatch.EvenExample | index.js:85-87 | with an evenness test and lines 1, 2, 3, 4, filter mode prints the encodings of 2 and 4 |
| Dispatch.DoubleExample | index.js:88-90 | with doubling and lines 1, 2, 3, map mode prints the encodings of 2, 4 and 6 |

## Left out

- Option declaration and help text (index.js:6-32): argument parsing. Its result is the `Args` record.
- The `--not-fp` choice between the two utility libraries (index.js:51): it selects a foreign library and does not affect the dispatcher.
- Evaluating the expression, the not-a-function check and binding `fn` to `context` (index.js:58-62): these are host code evaluation. `fn` is two total functions in `Host` (`apply` for one argument, `combine` for two). So the model has no state shared between calls through `context`: every call of `fn` depends only on its arguments.
- `fn` is also modelled as not changing its argument. In the code, values are passed by reference, so a filter predicate that mutates `v` (index.js:86) makes the code print `v` as `fn(v)` left it. `Dispatch.FilterOutput` states the output for a predicate that does not mutate its argument.
- `JSON.parse`, `JSON.stringify` and the printed form of a value: these are uninterpreted functions in `Host`. Parse errors (including an invalid seed at index.js:70), encode errors and exceptions thrown by `fn` are not modelled. In the code, each of these stops processing, and that is all it does.
- readline and stdin wiring (index.js:64-66): the input is a sequence of line events followed by one close, as driven by `Dispatch.Run`.
- `console.log`: one element of `output` is one printed record. A printed value that itself contains newlines is still one element.
- yargs' conversion of a numeric positional (such as `0`) to a number before the truthiness test at index.js:55: the expression is modelled as an optional string.
