/** Bytes and byte strings. */
module Octets {
  type byte = x: int | 0 <= x < 256
  type Bytes = seq<byte>

  function Ascii(text: string): Bytes
    requires forall i :: 0 <= i < |text| ==> (text[i] as int) < 128
  {
    seq(|text|, i requires 0 <= i < |text| => text[i] as int)
  }
}
