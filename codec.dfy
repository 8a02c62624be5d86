/** The host facilities the dispatcher relies on, and the line decoder and encoder
    built from them. */
module Codec {

  /** What the host provides, over an abstract value domain `V`:
      `parse` is JSON decoding, `stringify` JSON encoding, `show` the default
      string rendering used when printing a value, `ofString` a raw line as a
      string value, `apply` and `combine` the user's function called with one and
      with two arguments, and `truthy` the truthiness test. */
  datatype Host<!V> = Host(
    parse: string -> V,
    stringify: V -> string,
    show: V -> string,
    ofString: string -> V,
    apply: V -> V,
    combine: (V, V) -> V,
    truthy: V -> bool)

  /** The value of one input line: the raw text, or its JSON decoding. */
  function Decode<V>(h: Host<V>, stringInput: bool, line: string): V
  {
    if stringInput then h.ofString(line) else h.parse(line)
  }

  /** The text of one output line: the value's rendering, or its JSON encoding. */
  function Encode<V>(h: Host<V>, stringOutput: bool, v: V): string
  {
    if stringOutput then h.show(v) else h.stringify(v)
  }

  function DecodeFn<V>(h: Host<V>, stringInput: bool): string -> V
  {
    line => Decode(h, stringInput, line)
  }

  function EncodeFn<V>(h: Host<V>, stringOutput: bool): V -> string
  {
    v => Encode(h, stringOutput, v)
  }

  /** What map mode prints for a value: the encoding of the function's result. */
  function MappedFn<V>(h: Host<V>, stringOutput: bool): V -> string
  {
    v => Encode(h, stringOutput, h.apply(v))
  }

  /** The filter predicate: whether the function's result is truthy. */
  function KeepFn<V>(h: Host<V>): V -> bool
  {
    v => h.truthy(h.apply(v))
  }
}
