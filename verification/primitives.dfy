/**
 Machine-level value types shared by the rest of the model: bytes, 32-bit
 unsigned integers, `Option`, and the UTF-8 well-formedness test that Rust
 applies when a byte string is turned into a `String` or a `&str`.
 */
module Primitives {

  /** An unsigned 8-bit value (`u8`). */
  newtype byte = b: int | 0 <= b < 0x100

  /** An unsigned 32-bit value (`u32`). */
  newtype u32 = n: int | 0 <= n < 0x1_0000_0000

  /** Rust's `Option<T>`. */
  datatype Option<+T> = None | Some(value: T)

  /** A continuation byte of a multi-byte UTF-8 sequence: `10xxxxxx`. */
  predicate IsContinuation(b: byte) {
    0x80 <= b <= 0xBF
  }

  /**
   Length of the well-formed UTF-8 sequence that starts `s`, or 0 when `s`
   does not start with one. The byte ranges are the syntax of section 4 of
   RFC 3629 (overlong forms and surrogates excluded, nothing above U+10FFFF).
   */
  function LeadSequenceLength(s: seq<byte>): (n: nat)
    requires |s| > 0
    ensures n <= 4 && n <= |s|
    ensures s[0] < 0x80 <==> n == 1
    ensures n > 1 ==> forall i :: 1 <= i < n ==> IsContinuation(s[i])
    ensures IsContinuation(s[0]) ==> n == 0
    ensures n > 0 ==> s[0] < 0x80 || 0xC2 <= s[0] <= 0xF4
  {
    var b0 := s[0];
    if b0 < 0x80 then 1
    else if 0xC2 <= b0 <= 0xDF then
      if |s| >= 2 && IsContinuation(s[1]) then 2 else 0
    else if b0 == 0xE0 then
      if |s| >= 3 && 0xA0 <= s[1] <= 0xBF && IsContinuation(s[2]) then 3 else 0
    else if 0xE1 <= b0 <= 0xEC || 0xEE <= b0 <= 0xEF then
      if |s| >= 3 && IsContinuation(s[1]) && IsContinuation(s[2]) then 3 else 0
    else if b0 == 0xED then
      if |s| >= 3 && 0x80 <= s[1] <= 0x9F && IsContinuation(s[2]) then 3 else 0
    else if b0 == 0xF0 then
      if |s| >= 4 && 0x90 <= s[1] <= 0xBF && IsContinuation(s[2]) && IsContinuation(s[3]) then 4 else 0
    else if 0xF1 <= b0 <= 0xF3 then
      if |s| >= 4 && IsContinuation(s[1]) && IsContinuation(s[2]) && IsContinuation(s[3]) then 4 else 0
    else if b0 == 0xF4 then
      if |s| >= 4 && 0x80 <= s[1] <= 0x8F && IsContinuation(s[2]) && IsContinuation(s[3]) then 4 else 0
    else 0
  }

  /**
   True iff `s` is a concatenation of well-formed UTF-8 sequences. The octets
   C0, C1 and F5 to FF never appear in such text.
   */
  function ValidUtf8(s: seq<byte>): (r: bool)
    ensures r ==> forall i :: 0 <= i < |s| ==> s[i] != 0xC0 && s[i] != 0xC1 && s[i] < 0xF5
    decreases |s|
  {
    |s| == 0 || (var n := LeadSequenceLength(s); n > 0 && ValidUtf8(s[n..]))
  }

  /** Every byte below 0x80. */
  predicate IsAscii(s: seq<byte>) {
    forall i :: 0 <= i < |s| ==> s[i] < 0x80
  }

  /** Pure ASCII text is well-formed UTF-8, so it converts to a string without failing. */
  lemma {:induction false} AsciiIsValidUtf8(s: seq<byte>)
    requires IsAscii(s)
    ensures ValidUtf8(s)
    decreases |s|
  {
    if |s| > 0 {
      assert LeadSequenceLength(s) == 1;
      assert IsAscii(s[1..]) by {
        forall i | 0 <= i < |s[1..]| ensures s[1..][i] < 0x80 {
          assert s[1..][i] == s[i + 1];
        }
      }
      AsciiIsValidUtf8(s[1..]);
    }
  }
}
