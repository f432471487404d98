/** Bytes and text as the byte-level algorithms see them. */
module Bytes {
  type byte = n: nat | n < 256

  const NEWLINE: byte := 10
  const SPACE: byte := 32

  /** Everything but the last byte. */
  function Init(s: seq<byte>): seq<byte>
    requires s != []
  {
    s[..|s| - 1]
  }

  function Last(s: seq<byte>): byte
    requires s != []
  {
    s[|s| - 1]
  }
}
