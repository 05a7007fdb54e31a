/**
 * What the two encoders share (encoder.encode, emit.go:29-45 and
 * lib/emit.go:25-41): text is written piece by piece, an error panic stops
 * the encoding and becomes Encode's error with no output, and a string
 * panic is raised again out of Encode.
 */
module Encoding {
  import opened GoValues

  datatype EncodeError =
    | Unhandled(kind: Kind)                    // "unhandled type: %v kind: %v"
    | UnsupportedKey(keyKind: Kind)            // "unsupported map key type: %v"
    | MarshalFailed(message: string)           // the error a MarshalMoon method returned

  /** Encode's result: the text, an error (Encode returns nil bytes), or a
      panic that escapes Encode. */
  datatype Outcome = Written(text: string) | Failed(error: EncodeError) | Panicked(message: string)

  /** strconv.AppendFloat for a finite value of the given width, in the
      format and precision the encoder passes. */
  type FloatFormat = (FloatKind, bv64) -> string

  /** The message encodeFloat panics with on an infinity or NaN. */
  const BadFloat := "that value is bad"

  /** Writing `a` and then `b`: the first piece that does not finish decides
      the outcome. */
  function Cat(a: Outcome, b: Outcome): (r: Outcome)
    ensures r.Written? <==> a.Written? && b.Written?
    ensures r.Written? ==> r.text == a.text + b.text
    ensures !a.Written? ==> r == a
    ensures a.Written? && !b.Written? ==> r == b
  {
    if !a.Written? then a
    else if !b.Written? then b
    else Written(a.text + b.text)
  }

  /** Writing `x` between `open` and `close`. */
  function Enclose(open: string, x: Outcome, close: string): (r: Outcome)
    ensures r.Written? <==> x.Written?
    ensures r.Written? ==> r.text == open + x.text + close
    ensures !x.Written? ==> r == x
  {
    Cat(Cat(Written(open), x), Written(close))
  }

  /** The texts joined with one space between neighbours and none at either
      end. */
  function JoinSpaced(parts: seq<string>): string
  {
    if parts == [] then ""
    else if |parts| == 1 then parts[0]
    else parts[0] + " " + JoinSpaced(parts[1..])
  }

  lemma CatAssoc(a: Outcome, b: Outcome, c: Outcome)
    ensures Cat(Cat(a, b), c) == Cat(a, Cat(b, c))
  {
    if a.Written? && b.Written? && c.Written? {
      assert a.text + b.text + c.text == a.text + (b.text + c.text);
    }
  }
}
