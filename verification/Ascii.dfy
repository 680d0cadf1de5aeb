/** The character set strings are read in, US-ASCII. */
module Ascii {
  import opened Buffers
  import opened TypedStream

  /** Characters without a code become question marks, bytes without a character the replacement character. */
  const US_ASCII := Charset(
    c => if c as int < 0x80 then (c as int) as bv8 else 0x3F,
    b => if b < 0x80 then (b as int) as char else '\U{FFFD}')

  /** The characters that survive a round trip are those of US-ASCII but the terminator. */
  lemma {:induction false} PlainIff(c: char)
    ensures IsPlain(US_ASCII, c) <==> 0 < c as int < 0x80
  {}
}
