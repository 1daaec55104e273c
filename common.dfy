/** Shared vocabulary: optional values for Java references that may be null,
    results for operations that throw, and Java's 32-bit hash arithmetic. */
module Common {

  /** A Java reference that may be null. */
  datatype Option<+T> = None | Some(value: T)

  /** The outcome of a Java call that either returns a value or throws.
      The error carries the exception's message. */
  datatype Result<+T> = Ok(value: T) | Err(message: string)

  /** Java `String.hashCode`: h = 31 * h + u over the string's UTF-16 code
      units u, in 32-bit two's-complement arithmetic (bv32 wraps exactly
      like `int`). */
  function StringHash(s: string): bv32 {
    if s == [] then 0
    else HashUnits(StringHash(s[..|s| - 1]), Utf16Units(s[|s| - 1]))
  }

  /** The UTF-16 code units of one character: the character's own code in
      the basic multilingual plane, otherwise its surrogate pair, high unit
      first. */
  function Utf16Units(c: char): (r: seq<int>)
    ensures (c as int) < 0x1_0000 ==> r == [c as int]
    ensures (c as int) >= 0x1_0000 ==> |r| == 2 && 0xD800 <= r[0] < 0xDC00 <= r[1] < 0xE000
    ensures (c as int) >= 0x1_0000 ==> (r[0] - 0xD800) * 0x400 + (r[1] - 0xDC00) + 0x1_0000 == c as int
  {
    var v := c as int;
    if v < 0x1_0000 then [v]
    else [0xD800 + (v - 0x1_0000) / 0x400, 0xDC00 + (v - 0x1_0000) % 0x400]
  }

  /** Code units folded into a hash, first unit first. */
  function HashUnits(h: bv32, units: seq<int>): bv32
    requires forall i :: 0 <= i < |units| ==> 0 <= units[i] < 0x1_0000
    decreases units
  {
    if units == [] then h
    else HashUnits(31 * h + units[0] as bv32, units[1..])
  }

  /** A character outside the basic multilingual plane is hashed as two
      code units: U+1F600 is the surrogates 0xD83D and 0xDE00. */
  lemma SurrogatePairExample()
    ensures Utf16Units('\U{1F600}') == [0xD83D, 0xDE00]
  {
  }

  /** Java `31 * a + b` on `int` values, written on their 32-bit patterns. */
  function Combine(a: bv32, b: bv32): bv32 {
    31 * a + b
  }
}
